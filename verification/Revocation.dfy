/**
 "Log out everywhere" over stateless cookies: handlers that read a user's epoch and sign a
 cookie later, racing with logouts that move the epoch on (server/middleware.go,
 server/handlers_auth.go).
 */
module Revocation {
  import opened Options
  import opened ByteStrings
  import opened Session
  import opened UnixTime

  type HandlerId = nat

  // A login that has read the user's epoch; `readAt` is history, the number of steps before.
  datatype Login = Login(uid: Bytes, epoch: nat, readAt: nat)

  datatype Issued = Issued(grant: Grant, readAt: nat)

  datatype System = System(epochs: map<Bytes, nat>, logins: map<HandlerId, Login>, issued: set<Issued>, steps: nat)

  datatype Action =
    | NewUser(uid: Bytes)
    | ReadUser(h: HandlerId, uid: Bytes)
    | Issue(h: HandlerId, expiry: int)
    | Drop(h: HandlerId)
    | Bump(uid: Bytes)

  ghost predicate Init(s: System) {
    s.logins == map[] && s.issued == {} && s.steps == 0
  }

  ghost predicate Step(s: System, a: Action, s': System) {
    && s'.steps == s.steps + 1
    && match a
       case NewUser(uid) =>
         uid !in s.epochs && s' == s.(epochs := s.epochs[uid := 0], steps := s'.steps)
       case ReadUser(h, uid) =>
         && h !in s.logins && uid in s.epochs
         && s' == s.(logins := s.logins[h := Login(uid, s.epochs[uid], s.steps)], steps := s'.steps)
       case Issue(h, expiry) =>
         && h in s.logins
         && var me := s.logins[h];
            var grant := Grant(me.uid, me.epoch, expiry);
            && Representable(grant)
            && s' == s.(logins := s.logins - {h}, issued := s.issued + {Issued(grant, me.readAt)}, steps := s'.steps)
       case Drop(h) =>
         s' == s.(logins := s.logins - {h}, steps := s'.steps)
       case Bump(uid) =>
         uid in s.epochs && s' == s.(epochs := s.epochs[uid := s.epochs[uid] + 1], steps := s'.steps)
  }

  datatype Run = Run(states: seq<System>, actions: seq<Action>)

  ghost predicate IsRun(r: Run) {
    && |r.states| == |r.actions| + 1
    && Init(r.states[0])
    && forall i | 0 <= i < |r.actions| :: Step(r.states[i], r.actions[i], r.states[i + 1])
  }

  function Grants(s: System): set<Grant> {
    set i | i in s.issued :: i.grant
  }

  // loadUser: the cookie verifies and its epoch is the user's current one.
  function Accept(mac: Mac, s: System, value: Bytes, now: int): Option<Bytes> {
    var v := Verify(mac, value, now);
    if v.None? || v.value.0 !in s.epochs || s.epochs[v.value.0] != v.value.1 then None else Some(v.value.0)
  }

  // The epoch a login or cookie carries is the one its user had when it was read.
  ghost predicate ReadFrom(r: Run, k: nat, uid: Bytes, epoch: int, readAt: nat)
    requires k < |r.states|
  {
    readAt <= k && uid in r.states[readAt].epochs && r.states[readAt].epochs[uid] == epoch
  }

  lemma {:induction false} EpochsNeverGoBack(r: Run, i: nat, k: nat, uid: Bytes)
    requires IsRun(r) && i <= k < |r.states| && uid in r.states[i].epochs
    ensures uid in r.states[k].epochs && r.states[i].epochs[uid] <= r.states[k].epochs[uid]
  {
    if i == k {
    } else {
      EpochsNeverGoBack(r, i, k - 1, uid);
      assert Step(r.states[k - 1], r.actions[k - 1], r.states[k]);
    }
  }

  lemma {:induction false} HistoryIsTrue(r: Run, k: nat)
    requires IsRun(r) && k < |r.states|
    ensures r.states[k].steps == k
    ensures forall h | h in r.states[k].logins :: var l := r.states[k].logins[h]; ReadFrom(r, k, l.uid, l.epoch, l.readAt)
    ensures forall i | i in r.states[k].issued :: ReadFrom(r, k, i.grant.uid, i.grant.epoch, i.readAt) && Representable(i.grant)
  {
    if k == 0 {
    } else {
      HistoryIsTrue(r, k - 1);
      assert Step(r.states[k - 1], r.actions[k - 1], r.states[k]);
    }
  }

  // After a logout, whatever cookie is still accepted for that user comes from an epoch that
  // was read after it: every cookie read before, signed by then or only later, is dead.
  lemma LogoutRevokesForever(mac: Mac, r: Run, i: nat, k: nat, uid: Bytes, value: Bytes, now: int) returns (origin: Issued)
    requires IsRun(r) && i < k < |r.states| && r.actions[i] == Bump(uid)
    requires Accept(mac, r.states[k], value, now) == Some(uid)
    requires Unforgeable(mac, Grants(r.states[k]), value)
    ensures origin in r.states[k].issued && i < origin.readAt
    ensures Verify(mac, value, now) == Some((origin.grant.uid, origin.grant.epoch)) && origin.grant.uid == uid
  {
    HistoryIsTrue(r, k);
    var grant := AcceptedWasSigned(mac, Grants(r.states[k]), value, now);
    origin :| origin in r.states[k].issued && origin.grant == grant;
    assert ReadFrom(r, k, grant.uid, grant.epoch, origin.readAt);
    if origin.readAt <= i {
      EpochsNeverGoBack(r, origin.readAt, i, uid);
      assert Step(r.states[i], r.actions[i], r.states[i + 1]);
      EpochsNeverGoBack(r, i + 1, k, uid);
    }
  }

  lemma {:induction false} EpochKept(r: Run, i: nat, k: nat, uid: Bytes)
    requires IsRun(r) && i <= k < |r.states| && uid in r.states[i].epochs
    requires forall n | i <= n < k :: r.actions[n] != Bump(uid)
    ensures uid in r.states[k].epochs && r.states[k].epochs[uid] == r.states[i].epochs[uid]
  {
    if i == k {
    } else {
      EpochKept(r, i, k - 1, uid);
      assert Step(r.states[k - 1], r.actions[k - 1], r.states[k]);
    }
  }

  // Until the user's next logout a cookie is accepted as long as it verifies.
  lemma AcceptedUntilLogout(mac: Mac, r: Run, i: nat, k: nat, value: Bytes, now: int, later: int, uid: Bytes)
    requires IsRun(r) && i <= k < |r.states|
    requires Accept(mac, r.states[i], value, now) == Some(uid)
    requires forall n | i <= n < k :: r.actions[n] != Bump(uid)
    requires Verify(mac, value, later) == Verify(mac, value, now)
    ensures Accept(mac, r.states[k], value, later) == Some(uid)
  {
    EpochKept(r, i, k, uid);
  }

  // A cookie that was issued is accepted until it expires or the user logs out, the logout
  // counting from when the epoch was read.
  lemma IssuedIsAccepted(mac: Mac, r: Run, k: nat, origin: Issued, exp: int, now: int)
    requires IsRun(r) && k < |r.states| && origin in r.states[k].issued && origin.grant.expiry == ToUnix(exp)
    requires now < origin.grant.expiry * 1_000_000_000
    requires forall n | origin.readAt <= n < k :: r.actions[n] != Bump(origin.grant.uid)
    ensures Accept(mac, r.states[k], Sign(mac, origin.grant.uid, origin.grant.epoch, exp), now) == Some(origin.grant.uid)
  {
    HistoryIsTrue(r, k);
    EpochKept(r, origin.readAt, k, origin.grant.uid);
    VerifySigned(mac, origin.grant.uid, origin.grant.epoch, exp, now);
  }
}
