/**
 Sign-in callbacks racing each other, password sign-ups and logouts. Each callback runs
 resolveOIDCUser (server/handlers_oidc.go) as a program whose steps are its reads and
 writes of the users table; any number of callbacks interleave between any two of them.
 */
module OidcProtocol {
  import opened Options
  import opened Accounts

  // What the provider vouched for; the token itself was verified before.
  datatype Identity = Identity(issuer: string, subject: string, email: string, emailVerified: bool)

  // `canonical` stands for email.Canonical, None for a malformed address.
  datatype Config = Config(allowedDomains: seq<string>, canonical: string -> Option<string>)

  type CallbackId = nat

  datatype Phase =
    | Admitted                          // past the domain gate, no lookup yet
    | NoSubject                         // no account has the identity
    | Linking(target: UserId)           // an account with the e-mail was read, and looked linkable
    | LinkDone(target: UserId)          // the link committed, reload next
    | Provisioning                      // no account with the e-mail either
    | Resolved(user: UserId, epoch: nat)

  datatype Callback = Callback(id: Identity, phase: Phase)

  datatype Session = Session(id: Identity, user: UserId, epoch: nat)

  datatype System = System(users: Users, callbacks: map<CallbackId, Callback>, sessions: set<Session>)

  datatype Action =
    | SignUp(user: UserId, email: string)
    | LogOut(user: UserId)
    | Arrive(c: CallbackId, id: Identity)
    | FindSubject(c: CallbackId, user: UserId)
    | MissSubject(c: CallbackId)
    | FindEmail(c: CallbackId, user: UserId)
    | MissEmail(c: CallbackId)
    | Link(c: CallbackId)
    | Reload(c: CallbackId)
    | Provision(c: CallbackId, user: UserId)
    | Issue(c: CallbackId)
    | Reject(c: CallbackId)             // an error page, a lost connection or a crash

  // The index of the last '@', or None.
  function LastAt(s: string): (i: Option<nat>)
    ensures i.Some? ==> i.value < |s| && s[i.value] == '@' && '@' !in s[i.value + 1..]
    ensures i.None? ==> '@' !in s
  {
    if s == "" then None
    else if s[|s| - 1] == '@' then Some(|s| - 1)
    else
      var i := LastAt(s[..|s| - 1]);
      assert i.Some? ==> s[i.value + 1..] == s[..|s| - 1][i.value + 1..] + [s[|s| - 1]];
      i
  }

  predicate EmailDomainAllowed(allowed: seq<string>, email: string) {
    allowed == [] || (var at := LastAt(email); at.Some? && Lower(email[at.value + 1..]) in allowed)
  }

  lemma EmailDomainAllowedMeaning(allowed: seq<string>, email: string)
    ensures EmailDomainAllowed(allowed, email) <==>
      allowed == [] || exists local, domain :: email == local + "@" + domain && '@' !in domain && Lower(domain) in allowed
  {
    var at := LastAt(email);
    if at.Some? {
      assert email == email[..at.value] + "@" + email[at.value + 1..];
    }
    forall local, domain | email == local + "@" + domain && '@' !in domain
      ensures at == Some(|local|) && email[at.value + 1..] == domain
    {
      assert email[|local|] == '@';
    }
  }

  // The one form every later decision uses; empty when the provider shared no usable address.
  function CanonicalEmail(cfg: Config, id: Identity): string {
    if id.email == "" then "" else cfg.canonical(id.email).GetOr("")
  }

  predicate HasEmail(cfg: Config, id: Identity) {
    CanonicalEmail(cfg, id) != ""
  }

  // The allowlist applies on every path, also to accounts linked long ago.
  predicate PassesGate(cfg: Config, id: Identity) {
    cfg.allowedDomains == [] ||
    (id.emailVerified && HasEmail(cfg, id) && EmailDomainAllowed(cfg.allowedDomains, CanonicalEmail(cfg, id)))
  }

  // With an allowlist: a verified address whose domain is on it, whatever its case.
  ghost predicate AllowedAddress(cfg: Config, id: Identity) {
    && id.emailVerified && id.email != ""
    && exists local, domain ::
         cfg.canonical(id.email) == Some(local + "@" + domain) && '@' !in domain && Lower(domain) in cfg.allowedDomains
  }

  lemma GateMeaning(cfg: Config, id: Identity)
    ensures PassesGate(cfg, id) <==> cfg.allowedDomains == [] || AllowedAddress(cfg, id)
  {
    var email := CanonicalEmail(cfg, id);
    EmailDomainAllowedMeaning(cfg.allowedDomains, email);
    if cfg.allowedDomains != [] && PassesGate(cfg, id) {
      var local, domain :| email == local + "@" + domain && '@' !in domain && Lower(domain) in cfg.allowedDomains;
      assert cfg.canonical(id.email) == Some(local + "@" + domain);
    }
    if AllowedAddress(cfg, id) {
      var local, domain :|
        cfg.canonical(id.email) == Some(local + "@" + domain) && '@' !in domain && Lower(domain) in cfg.allowedDomains;
      assert email == local + "@" + domain && email != "";
    }
  }

  ghost predicate Init(s: System) {
    s.callbacks == map[] && s.sessions == {} && Unique(s.users)
  }

  function Goto(s: System, c: CallbackId, phase: Phase): System
    requires c in s.callbacks
  {
    s.(callbacks := s.callbacks[c := s.callbacks[c].(phase := phase)])
  }

  function Done(s: System, c: CallbackId): System {
    s.(callbacks := s.callbacks - {c})
  }

  ghost predicate Step(cfg: Config, s: System, a: Action, s': System) {
    match a
    case SignUp(user, email) =>
      var r := CreateUser(s.users, user, email, "", "");
      s' == if r.Some? then s.(users := r.value) else s
    case LogOut(user) =>
      var r := BumpSessionEpoch(s.users, user);
      s' == if r.Some? then s.(users := r.value) else s
    case Arrive(c, id) =>
      c !in s.callbacks && PassesGate(cfg, id) && s' == s.(callbacks := s.callbacks[c := Callback(id, Admitted)])
    case _ =>
      a.c in s.callbacks && CallbackStep(cfg, s, a, s.callbacks[a.c].id, s.callbacks[a.c].phase, s')
  }

  ghost predicate CallbackStep(cfg: Config, s: System, a: Action, id: Identity, phase: Phase, s': System)
    requires !a.SignUp? && !a.LogOut? && !a.Arrive?
    requires a.c in s.callbacks && s.callbacks[a.c] == Callback(id, phase)
  {
    match a
    case FindSubject(c, user) =>
      && phase.Admitted? && id.subject != "" && user in s.users && Linked(s.users[user], id.issuer, id.subject)
      && s' == Goto(s, c, Resolved(user, s.users[user].epoch))
    case MissSubject(c) =>
      phase.Admitted? && !IdentityTaken(s.users, id.issuer, id.subject) && HasEmail(cfg, id) && s' == Goto(s, c, NoSubject)
    case FindEmail(c, user) =>
      && phase.NoSubject? && HasEmail(cfg, id) && id.emailVerified
      && user in s.users && SameMailbox(s.users[user].email, CanonicalEmail(cfg, id))
      && (s.users[user].subject == "" || Linked(s.users[user], id.issuer, id.subject))
      && s' == Goto(s, c, Linking(user))
    case MissEmail(c) =>
      && phase.NoSubject? && HasEmail(cfg, id) && id.emailVerified
      && (forall v | v in s.users :: !SameMailbox(s.users[v].email, CanonicalEmail(cfg, id)))
      && s' == Goto(s, c, Provisioning)
    case Link(c) =>
      && phase.Linking?
      && var r := LinkOIDCIdentity(s.users, phase.target, id.issuer, id.subject);
         s' == if r.Some? then Goto(s.(users := r.value), c, LinkDone(phase.target)) else Done(s, c)
    case Reload(c) =>
      && phase.LinkDone? && phase.target in s.users
      && s' == Goto(s, c, Resolved(phase.target, s.users[phase.target].epoch))
    case Provision(c, user) =>
      && phase.Provisioning? && HasEmail(cfg, id)
      && var r := CreateUser(s.users, user, CanonicalEmail(cfg, id), id.issuer, id.subject);
         s' == if r.Some? then Goto(s.(users := r.value), c, Resolved(user, 0)) else Done(s, c)
    case Issue(c) =>
      phase.Resolved? && s' == Done(s.(sessions := s.sessions + {Session(id, phase.user, phase.epoch)}), c)
    case Reject(c) =>
      s' == Done(s, c)
  }

  datatype Run = Run(states: seq<System>, actions: seq<Action>)

  ghost predicate IsRun(cfg: Config, r: Run) {
    && |r.states| == |r.actions| + 1
    && Init(r.states[0])
    && forall i | 0 <= i < |r.actions| :: Step(cfg, r.states[i], r.actions[i], r.states[i + 1])
  }

  function Last(r: Run): System
    requires r.states != []
  {
    r.states[|r.states| - 1]
  }

  lemma Extend(cfg: Config, r: Run, a: Action, s': System) returns (longer: Run)
    requires IsRun(cfg, r) && Step(cfg, Last(r), a, s')
    ensures IsRun(cfg, longer) && Last(longer) == s' && |longer.states| == |r.states| + 1
    ensures longer.states[..|r.states|] == r.states
  {
    longer := Run(r.states + [s'], r.actions + [a]);
  }
}
