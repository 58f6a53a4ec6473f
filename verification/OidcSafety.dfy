/**
 What racing callbacks can and cannot do to the binding between a provider identity and an
 account (section 5.7 of OpenID Connect Core 1.0: issuer and subject together identify).
 */
module OidcSafety {
  import opened Accounts
  import opened OidcProtocol

  // ---------------------------------------------------------------- the invariant

  // The account is linked to this identity, and by Evolves stays so.
  ghost predicate Bound(users: Users, user: UserId, id: Identity) {
    user in users && (id.subject != "" ==> Linked(users[user], id.issuer, id.subject))
  }

  ghost predicate CallbackOk(cfg: Config, users: Users, cb: Callback) {
    && PassesGate(cfg, cb.id)
    && (cb.phase.Linking? ==>
          && cb.id.emailVerified && HasEmail(cfg, cb.id)
          && cb.phase.target in users && SameMailbox(users[cb.phase.target].email, CanonicalEmail(cfg, cb.id)))
    && (cb.phase.Provisioning? ==> cb.id.emailVerified && HasEmail(cfg, cb.id))
    && (cb.phase.LinkDone? ==> Bound(users, cb.phase.target, cb.id))
    && (cb.phase.Resolved? ==> Bound(users, cb.phase.user, cb.id) && cb.phase.epoch <= users[cb.phase.user].epoch)
  }

  ghost predicate SessionOk(cfg: Config, users: Users, session: Session) {
    && PassesGate(cfg, session.id)
    && Bound(users, session.user, session.id)
    && session.epoch <= users[session.user].epoch
  }

  ghost predicate Inv(cfg: Config, s: System) {
    && Unique(s.users)
    && (forall c | c in s.callbacks :: CallbackOk(cfg, s.users, s.callbacks[c]))
    && (forall session | session in s.sessions :: SessionOk(cfg, s.users, session))
  }

  lemma UsersStep(cfg: Config, s: System, a: Action, s': System)
    requires Unique(s.users) && Step(cfg, s, a, s')
    ensures Unique(s'.users) && Evolves(s.users, s'.users)
  {
    match a
    case SignUp(user, email) =>
      if CreateUser(s.users, user, email, "", "").Some? { CreateEvolves(s.users, user, email, "", ""); }
    case LogOut(user) =>
      if user in s.users { BumpEvolves(s.users, user); }
    case Link(c) =>
      var id, target := s.callbacks[c].id, s.callbacks[c].phase.target;
      if LinkOIDCIdentity(s.users, target, id.issuer, id.subject).Some? {
        LinkEvolves(s.users, target, id.issuer, id.subject);
      }
    case Provision(c, user) =>
      var id := s.callbacks[c].id;
      var email := CanonicalEmail(cfg, id);
      if CreateUser(s.users, user, email, id.issuer, id.subject).Some? {
        CreateEvolves(s.users, user, email, id.issuer, id.subject);
      }
    case _ =>
  }

  lemma CallbackStaysOk(cfg: Config, users: Users, cb: Callback, users': Users)
    requires CallbackOk(cfg, users, cb) && Evolves(users, users')
    ensures CallbackOk(cfg, users', cb)
  {
  }

  lemma SessionStaysOk(cfg: Config, users: Users, session: Session, users': Users)
    requires SessionOk(cfg, users, session) && Evolves(users, users')
    ensures SessionOk(cfg, users', session)
  {
  }

  // A callback that wrote the table has bound an account to its identity.
  lemma WriterBinds(cfg: Config, s: System, a: Action, id: Identity, phase: Phase, s': System)
    requires (a.Link? || a.Provision?) && a.c in s.callbacks && s.callbacks[a.c] == Callback(id, phase)
    requires CallbackStep(cfg, s, a, id, phase, s') && a.c in s'.callbacks
    ensures s'.callbacks[a.c].id == id
    ensures var next := s'.callbacks[a.c].phase;
      || (next.LinkDone? && Bound(s'.users, next.target, id))
      || (next.Resolved? && Bound(s'.users, next.user, id) && next.epoch == s'.users[next.user].epoch)
  {
  }

  // One that only read moves on with what it read.
  lemma ReaderKeepsOk(cfg: Config, s: System, a: Action, cb: Callback, s': System)
    requires !a.SignUp? && !a.LogOut? && !a.Arrive? && !a.Link? && !a.Provision?
    requires a.c in s.callbacks && s.callbacks[a.c] == cb && CallbackOk(cfg, s.users, cb)
    requires CallbackStep(cfg, s, a, cb.id, cb.phase, s') && a.c in s'.callbacks
    ensures CallbackOk(cfg, s'.users, s'.callbacks[a.c])
  {
    assert s'.users == s.users && s'.callbacks[a.c].id == cb.id;
  }

  lemma MoverKeepsOk(cfg: Config, s: System, a: Action, s': System)
    requires Inv(cfg, s) && Step(cfg, s, a, s') && !a.SignUp? && !a.LogOut? && a.c in s'.callbacks
    ensures CallbackOk(cfg, s'.users, s'.callbacks[a.c])
  {
    if !a.Arrive? {
      var cb := s.callbacks[a.c];
      assert CallbackOk(cfg, s.users, cb);
      if a.Link? || a.Provision? {
        WriterBinds(cfg, s, a, cb.id, cb.phase, s');
      } else {
        ReaderKeepsOk(cfg, s, a, cb, s');
      }
    }
  }

  lemma CallbacksKept(cfg: Config, s: System, a: Action, s': System)
    requires Inv(cfg, s) && Step(cfg, s, a, s') && Evolves(s.users, s'.users)
    ensures forall c | c in s'.callbacks :: CallbackOk(cfg, s'.users, s'.callbacks[c])
  {
    forall c | c in s'.callbacks ensures CallbackOk(cfg, s'.users, s'.callbacks[c]) {
      if !a.SignUp? && !a.LogOut? && a.c == c {
        MoverKeepsOk(cfg, s, a, s');
      } else {
        CallbackStaysOk(cfg, s.users, s.callbacks[c], s'.users);
      }
    }
  }

  lemma SessionsKept(cfg: Config, s: System, a: Action, s': System)
    requires Inv(cfg, s) && Step(cfg, s, a, s') && Evolves(s.users, s'.users)
    ensures forall session | session in s'.sessions :: SessionOk(cfg, s'.users, session)
  {
    forall session | session in s'.sessions ensures SessionOk(cfg, s'.users, session) {
      if session in s.sessions {
        SessionStaysOk(cfg, s.users, session, s'.users);
      } else {
        assert a.Issue?;
        var cb := s.callbacks[a.c];
        assert CallbackOk(cfg, s.users, cb) && session == Session(cb.id, cb.phase.user, cb.phase.epoch);
      }
    }
  }

  lemma StepKeepsInv(cfg: Config, s: System, a: Action, s': System)
    requires Inv(cfg, s) && Step(cfg, s, a, s')
    ensures Inv(cfg, s') && Evolves(s.users, s'.users)
  {
    UsersStep(cfg, s, a, s');
    CallbacksKept(cfg, s, a, s');
    SessionsKept(cfg, s, a, s');
  }

  lemma {:induction false} InvHolds(cfg: Config, r: Run, i: nat)
    requires IsRun(cfg, r) && i < |r.states|
    ensures Inv(cfg, r.states[i])
  {
    if i == 0 {
    } else {
      InvHolds(cfg, r, i - 1);
      StepKeepsInv(cfg, r.states[i - 1], r.actions[i - 1], r.states[i]);
    }
  }

  lemma {:induction false} EvolvesOver(cfg: Config, r: Run, i: nat, k: nat)
    requires IsRun(cfg, r) && i <= k < |r.states|
    ensures Inv(cfg, r.states[i]) && Inv(cfg, r.states[k])
    ensures Evolves(r.states[i].users, r.states[k].users)
  {
    InvHolds(cfg, r, i);
    InvHolds(cfg, r, k);
    if i == k {
    } else {
      EvolvesOver(cfg, r, i, k - 1);
      StepKeepsInv(cfg, r.states[k - 1], r.actions[k - 1], r.states[k]);
    }
  }

  // ---------------------------------------------------------------- every run

  // A linked account keeps its identity, and no two accounts share one.
  lemma LinksAreForever(cfg: Config, r: Run, i: nat, k: nat, u: UserId)
    requires IsRun(cfg, r) && i <= k < |r.states| && u in r.states[i].users && r.states[i].users[u].subject != ""
    ensures var was := r.states[i].users[u];
      && u in r.states[k].users && Linked(r.states[k].users[u], was.issuer, was.subject)
      && forall v | v in r.states[k].users && Linked(r.states[k].users[v], was.issuer, was.subject) :: v == u
  {
    EvolvesOver(cfg, r, i, k);
  }

  // Every session ever issued is for an account that is linked to exactly the presented
  // identity, then and ever after, and only to someone the domain allowlist admits.
  lemma SessionsMatchIdentity(cfg: Config, r: Run, i: nat, k: nat, session: Session)
    requires IsRun(cfg, r) && i <= k < |r.states| && session in r.states[i].sessions && session.id.subject != ""
    ensures session.user in r.states[k].users
    ensures Linked(r.states[k].users[session.user], session.id.issuer, session.id.subject)
    ensures forall v | v in r.states[k].users && Linked(r.states[k].users[v], session.id.issuer, session.id.subject) :: v == session.user
    ensures PassesGate(cfg, session.id)
  {
    EvolvesOver(cfg, r, i, k);
    assert SessionOk(cfg, r.states[i].users, session);
  }

  // No session is ever issued past the allowlist: the address was verified and its domain
  // is listed.
  lemma SessionsAreAllowed(cfg: Config, r: Run, i: nat, session: Session)
    requires IsRun(cfg, r) && i < |r.states| && session in r.states[i].sessions
    ensures cfg.allowedDomains == [] || AllowedAddress(cfg, session.id)
  {
    InvHolds(cfg, r, i);
    assert SessionOk(cfg, r.states[i].users, session);
    GateMeaning(cfg, session.id);
  }

  // An account gets an identity only from a callback that presents it together with a
  // verified address of that account's own mailbox.
  lemma LinkingNeedsVerifiedMailbox(cfg: Config, r: Run, i: nat, u: UserId)
    requires IsRun(cfg, r) && i < |r.actions|
    requires var s, s' := r.states[i], r.states[i + 1];
      && u in s'.users && s'.users[u].subject != ""
      && (u !in s.users || s.users[u].subject == "")
    ensures var s, a, s' := r.states[i], r.actions[i], r.states[i + 1];
      && (a.Link? || a.Provision?) && a.c in s.callbacks
      && var id := s.callbacks[a.c].id;
         && id.emailVerified && HasEmail(cfg, id)
         && SameMailbox(s'.users[u].email, CanonicalEmail(cfg, id))
         && Linked(s'.users[u], id.issuer, id.subject)
  {
    var s, a, s' := r.states[i], r.actions[i], r.states[i + 1];
    EvolvesOver(cfg, r, i, i);
    assert Step(cfg, s, a, s');
    if a.Link? || a.Provision? {
      assert CallbackOk(cfg, s.users, s.callbacks[a.c]);
    }
  }

  // Two callbacks of one identity that race for the same unlinked account both get it: the
  // one that comes second finds its own link.
  lemma SameIdentityLinksTwice(cfg: Config, s: System, c: CallbackId, d: CallbackId, id: Identity, target: UserId,
                               s1: System, s2: System)
    requires Inv(cfg, s) && c != d && c in s.callbacks && d in s.callbacks
    requires s.callbacks[c] == Callback(id, Linking(target)) && s.callbacks[d] == Callback(id, Linking(target))
    requires s.users[target].subject == "" && !IdentityTaken(s.users, id.issuer, id.subject)
    requires Step(cfg, s, Link(c), s1) && Step(cfg, s1, Link(d), s2)
    ensures c in s2.callbacks && s2.callbacks[c].phase == LinkDone(target)
    ensures d in s2.callbacks && s2.callbacks[d].phase == LinkDone(target)
    ensures s2.users[target].issuer == id.issuer && s2.users[target].subject == id.subject
  {
    assert forall v | v in s.users - {target} :: v in s.users;
    assert s1.users - {target} == s.users - {target};
  }

  // ---------------------------------------------------------------- the empty subject

  // Every session for this identity stays with an account linked to exactly it.
  ghost predicate Binds(cfg: Config, id: Identity) {
    forall r: Run, i, k, session | IsRun(cfg, r) && 0 <= i <= k < |r.states| && session in r.states[i].sessions && session.id == id ::
      session.user in r.states[k].users && Linked(r.states[k].users[session.user], id.issuer, id.subject)
  }

  // A verified identity that the site lets in.
  predicate Admissible(cfg: Config, id: Identity) {
    PassesGate(cfg, id) && id.emailVerified && HasEmail(cfg, id)
  }

  lemma NewIdentityProvisions(cfg: Config, id: Identity) returns (r: Run)
    requires Admissible(cfg, id)
    ensures IsRun(cfg, r) && Last(r) == System(map[], map[0 := Callback(id, Provisioning)], {})
  {
    var s0 := System(map[], map[], {});
    r := Run([s0], []);
    r := Extend(cfg, r, Arrive(0, id), s0.(callbacks := map[0 := Callback(id, Admitted)]));
    r := Extend(cfg, r, MissSubject(0), s0.(callbacks := map[0 := Callback(id, NoSubject)]));
    r := Extend(cfg, r, MissEmail(0), s0.(callbacks := map[0 := Callback(id, Provisioning)]));
  }

  // The first sign-in of an identity on an empty site.
  lemma FirstSignIn(cfg: Config, id: Identity) returns (r: Run)
    requires Admissible(cfg, id)
    ensures IsRun(cfg, r)
    ensures Last(r) == System(map[0 := User(CanonicalEmail(cfg, id), id.issuer, id.subject, 0)], map[], {Session(id, 0, 0)})
  {
    r := NewIdentityProvisions(cfg, id);
    var users := map[0 := User(CanonicalEmail(cfg, id), id.issuer, id.subject, 0)];
    r := Extend(cfg, r, Provision(0, 0), System(users, map[0 := Callback(id, Resolved(0, 0))], {}));
    var s' := System(users, map[], {Session(id, 0, 0)});
    assert {} + {Session(id, 0, 0)} == s'.sessions;
    r := Extend(cfg, r, Issue(0), s');
  }

  // With an empty subject the account still looks unlinked, so the next identity asserting
  // the same verified address takes it over, be it from this issuer or another.
  lemma EmptySubjectIsRebound(cfg: Config, id: Identity, other: Identity) returns (r: Run)
    requires Admissible(cfg, id) && id.subject == ""
    requires Admissible(cfg, other) && CanonicalEmail(cfg, other) == CanonicalEmail(cfg, id)
    ensures IsRun(cfg, r) && Session(id, 0, 0) in Last(r).sessions
    ensures 0 in Last(r).users && Linked(Last(r).users[0], other.issuer, other.subject)
  {
    r := FirstSignIn(cfg, id);
    var s := Last(r);
    r := Extend(cfg, r, Arrive(1, other), s.(callbacks := map[1 := Callback(other, Admitted)]));
    r := Extend(cfg, r, MissSubject(1), s.(callbacks := map[1 := Callback(other, NoSubject)]));
    r := Extend(cfg, r, FindEmail(1, 0), s.(callbacks := map[1 := Callback(other, Linking(0))]));
    var users := s.users[0 := s.users[0].(issuer := other.issuer, subject := other.subject)];
    r := Extend(cfg, r, Link(1), s.(users := users, callbacks := map[1 := Callback(other, LinkDone(0))]));
  }

  // The binding holds exactly for identities with a subject. Nothing on this path rejects an
  // empty one: the code relies on the provider for it.
  lemma BindsExactlyWhenSubject(cfg: Config, id: Identity)
    requires Admissible(cfg, id)
    ensures Binds(cfg, id) <==> id.subject != ""
  {
    if id.subject != "" {
      forall r: Run, i, k, session | IsRun(cfg, r) && 0 <= i <= k < |r.states| && session in r.states[i].sessions && session.id == id
        ensures session.user in r.states[k].users && Linked(r.states[k].users[session.user], id.issuer, id.subject)
      {
        SessionsMatchIdentity(cfg, r, i, k, session);
      }
    } else {
      // the same provider, sending the subject this time
      var r := EmptySubjectIsRebound(cfg, id, id.(subject := "x"));
      var n := |r.states| - 1;
      assert Session(id, 0, 0) in r.states[n].sessions;
      assert !Linked(r.states[n].users[0], id.issuer, id.subject);
    }
  }
}
