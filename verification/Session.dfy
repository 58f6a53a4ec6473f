/**
 The signed session cookie (internal/session/session.go): four base64url parts joined by
 dots, the user id, the expiry and the session epoch, and the MAC of the first three. The
 keyed hash is a parameter; nothing here depends on which function it is.
 */
module Session {
  import opened Options
  import opened UnixTime
  import opened ByteStrings
  import Base64Url
  import Decimal

  const DOT: Byte := 46

  // What a cookie says; expiry in Unix seconds.
  datatype Grant = Grant(uid: Bytes, epoch: int, expiry: int)

  type Mac = Bytes -> Bytes

  function Payload(g: Grant): Bytes {
    Base64Url.Encode(g.uid) + [DOT] + Base64Url.Encode(Decimal.Format(g.expiry))
    + [DOT] + Base64Url.Encode(Decimal.Format(g.epoch))
  }

  function Sign(mac: Mac, uid: Bytes, epoch: int, exp: int): Bytes {
    var payload := Payload(Grant(uid, epoch, ToUnix(exp)));
    payload + [DOT] + Base64Url.Encode(mac(payload))
  }

  // The part of a cookie the MAC covers, when the value has four parts and its MAC is right.
  function Authentic(mac: Mac, value: Bytes): Option<Bytes> {
    var parts := Split(value, DOT);
    if |parts| != 4 then None
    else
      var payload := parts[0] + [DOT] + parts[1] + [DOT] + parts[2];
      if Base64Url.Decode(parts[3]) == Some(mac(payload)) then Some(payload) else None
  }

  // (uid, epoch), or None for every malformed, forged or expired cookie.
  function Verify(mac: Mac, value: Bytes, now: int): Option<(Bytes, int)> {
    var parts := Split(value, DOT);
    if |parts| != 4 then None
    else if Authentic(mac, value).None? then None
    else
      var expRaw := Base64Url.Decode(parts[1]);
      var exp := if expRaw.Some? then Decimal.Parse(expRaw.value) else None;
      if exp.None? || ToUnix(now) >= exp.value then None
      else
        var epochRaw := Base64Url.Decode(parts[2]);
        var epoch := if epochRaw.Some? then Decimal.Parse(epochRaw.value) else None;
        var uid := Base64Url.Decode(parts[0]);
        if epoch.None? || uid.None? then None else Some((uid.value, epoch.value))
  }

  predicate Representable(g: Grant) {
    Decimal.InInt64(g.epoch) && Decimal.InInt64(g.expiry)
  }

  function PayloadParts(g: Grant): seq<Bytes> {
    [Base64Url.Encode(g.uid), Base64Url.Encode(Decimal.Format(g.expiry)), Base64Url.Encode(Decimal.Format(g.epoch))]
  }

  // A payload falls back into the three parts it was made of, and only into those.
  lemma PayloadSplits(g: Grant, a: Bytes, b: Bytes, c: Bytes)
    requires DOT !in a && DOT !in b && DOT !in c
    requires Payload(g) == a + [DOT] + b + [DOT] + c
    ensures PayloadParts(g) == [a, b, c]
  {
    ThreeSplit(a, b, c);
    var p := PayloadParts(g);
    ThreeSplit(p[0], p[1], p[2]);
  }

  lemma ThreeSplit(a: Bytes, b: Bytes, c: Bytes)
    requires DOT !in a && DOT !in b && DOT !in c
    ensures Split(a + [DOT] + b + [DOT] + c, DOT) == [a, b, c]
  {
    assert a + [DOT] + b + [DOT] + c == a + [DOT] + (b + [DOT] + c);
    SplitFirst(a, DOT, b + [DOT] + c);
    SplitFirst(b, DOT, c);
    SplitWhole(c, DOT);
  }

  // Each part decodes to the field it encodes.
  lemma FieldsReadBack(g: Grant)
    requires Representable(g)
    ensures Base64Url.Decode(PayloadParts(g)[0]) == Some(g.uid)
    ensures var e := Base64Url.Decode(PayloadParts(g)[1]); e.Some? && Decimal.Parse(e.value) == Some(g.expiry)
    ensures var e := Base64Url.Decode(PayloadParts(g)[2]); e.Some? && Decimal.Parse(e.value) == Some(g.epoch)
  {
    Base64Url.RoundTrip(g.uid);
    Base64Url.RoundTrip(Decimal.Format(g.epoch));
    Base64Url.RoundTrip(Decimal.Format(g.expiry));
    Decimal.RoundTrip(g.epoch);
    Decimal.RoundTrip(g.expiry);
  }

  lemma SignedSplits(g: Grant, tag: Bytes)
    ensures Split(Payload(g) + [DOT] + Base64Url.Encode(tag), DOT) == PayloadParts(g) + [Base64Url.Encode(tag)]
  {
    var p, t := PayloadParts(g), Base64Url.Encode(tag);
    assert Payload(g) + [DOT] + t == p[0] + [DOT] + (p[1] + [DOT] + (p[2] + [DOT] + t));
    SplitFirst(p[0], DOT, p[1] + [DOT] + (p[2] + [DOT] + t));
    SplitFirst(p[1], DOT, p[2] + [DOT] + t);
    SplitFirst(p[2], DOT, t);
    SplitWhole(t, DOT);
  }

  // Two cookies with the same signed part say the same thing.
  lemma PayloadInjective(g: Grant, h: Grant)
    requires Representable(g) && Representable(h) && Payload(g) == Payload(h)
    ensures g == h
  {
    var p := PayloadParts(h);
    PayloadSplits(g, p[0], p[1], p[2]);
    FieldsReadBack(g);
    FieldsReadBack(h);
  }

  // A signed cookie verifies to what was signed until its expiry in whole seconds, and to
  // nothing from then on.
  lemma VerifySigned(mac: Mac, uid: Bytes, epoch: int, exp: int, now: int)
    requires Representable(Grant(uid, epoch, ToUnix(exp)))
    ensures Verify(mac, Sign(mac, uid, epoch, exp), now) == if now < FromUnix(ToUnix(exp)) then Some((uid, epoch)) else None
  {
    var g := Grant(uid, epoch, ToUnix(exp));
    SignedSplits(g, mac(Payload(g)));
    Base64Url.RoundTrip(mac(Payload(g)));
    FieldsReadBack(g);
  }

  // Only a deadline on a whole second is kept to the letter: any other cookie is refused
  // before its time has come, by less than a second.
  lemma OnTimeExactlyWhenWholeSecond(mac: Mac, uid: Bytes, epoch: int, exp: int)
    requires Representable(Grant(uid, epoch, ToUnix(exp)))
    ensures (forall now :: Verify(mac, Sign(mac, uid, epoch, exp), now) == if now < exp then Some((uid, epoch)) else None)
      <==> exp % SECOND == 0
    ensures exp - SECOND < FromUnix(ToUnix(exp)) <= exp
  {
    var cookie := Sign(mac, uid, epoch, exp);
    forall now ensures Verify(mac, cookie, now) == if now < FromUnix(ToUnix(exp)) then Some((uid, epoch)) else None {
      VerifySigned(mac, uid, epoch, exp, now);
    }
    if exp % SECOND != 0 {
      var early := FromUnix(ToUnix(exp));
      assert early < exp && Verify(mac, cookie, early) == None;
    }
  }

  // The ideal MAC: when a value is some text, a dot and a right tag for that text, the text
  // is the payload of a signed cookie.
  ghost predicate Unforgeable(mac: Mac, signed: set<Grant>, value: Bytes) {
    forall text, tag | value == text + [46] + tag && 46 !in tag && Base64Url.Decode(tag) == Some(mac(text)) ::
      exists g | g in signed :: Payload(g) == text
  }

  // Every cookie that was really signed meets that ideal.
  lemma SignedIsAuthentic(mac: Mac, uid: Bytes, epoch: int, exp: int, signed: set<Grant>)
    requires Grant(uid, epoch, ToUnix(exp)) in signed
    ensures Authentic(mac, Sign(mac, uid, epoch, exp)) == Some(Payload(Grant(uid, epoch, ToUnix(exp))))
    ensures Unforgeable(mac, signed, Sign(mac, uid, epoch, exp))
  {
    var g := Grant(uid, epoch, ToUnix(exp));
    var payload, own := Payload(g), Base64Url.Encode(mac(Payload(g)));
    SignedSplits(g, mac(payload));
    Base64Url.RoundTrip(mac(payload));
    forall text, tag | payload + [46] + own == text + [46] + tag && 46 !in tag ensures text == payload {
      LastSeparator(payload, own, text, tag, 46);
    }
  }

  // The layout: user id, expiry second and epoch in decimal, and the tag of these three, each
  // in base64url, between dots.
  lemma Layout(mac: Mac, uid: Bytes, epoch: int, exp: int)
    ensures var parts := Split(Sign(mac, uid, epoch, exp), 46);
      && |parts| == 4
      && parts[0] == Base64Url.Encode(uid)
      && parts[1] == Base64Url.Encode(Decimal.Format(exp / 1_000_000_000))
      && parts[2] == Base64Url.Encode(Decimal.Format(epoch))
      && parts[3] == Base64Url.Encode(mac(parts[0] + [46] + parts[1] + [46] + parts[2]))
  {
    var g := Grant(uid, epoch, ToUnix(exp));
    SignedSplits(g, mac(Payload(g)));
  }

  // Every part of a split is free of the separator.
  lemma {:induction false} SplitPartsFree(s: Bytes, sep: Byte)
    ensures forall p | p in Split(s, sep) :: sep !in p
  {
    if s == [] {
    } else {
      SplitPartsFree(s[1..], sep);
    }
  }

  function ReadNumber(part: Bytes): Option<int> {
    var text := Base64Url.Decode(part);
    if text.None? then None else Decimal.Parse(text.value)
  }

  // Four parts between dots, the last the tag of the first three, and an expiry to come.
  predicate PartsSay(mac: Mac, a: Bytes, b: Bytes, c: Bytes, tag: Bytes, now: int, uid: Bytes, epoch: int) {
    && 46 !in a && 46 !in b && 46 !in c && 46 !in tag
    && Base64Url.Decode(tag) == Some(mac(a + [46] + b + [46] + c))
    && Base64Url.Decode(a) == Some(uid) && ReadNumber(c) == Some(epoch)
    && ReadNumber(b).Some? && now < ReadNumber(b).value * 1_000_000_000
  }

  ghost predicate Says(mac: Mac, value: Bytes, now: int, uid: Bytes, epoch: int) {
    exists a, b, c, tag ::
      PartsSay(mac, a, b, c, tag, now, uid, epoch) && value == a + [46] + b + [46] + c + [46] + tag
  }

  lemma FourJoined(parts: seq<Bytes>)
    requires |parts| == 4
    ensures Join(parts, 46) == parts[0] + [46] + parts[1] + [46] + parts[2] + [46] + parts[3]
  {
    assert parts[1..][0] == parts[1] && parts[1..][1..] == parts[2..] && parts[2..][0] == parts[2] && parts[2..][1..] == parts[3..];
    assert Join(parts[3..], 46) == parts[3];
    assert Join(parts[2..], 46) == parts[2] + [46] + parts[3];
    assert Join(parts[1..], 46) == parts[1] + [46] + Join(parts[2..], 46);
  }

  lemma FourSplit(a: Bytes, b: Bytes, c: Bytes, d: Bytes)
    requires 46 !in a && 46 !in b && 46 !in c && 46 !in d
    ensures Split(a + [46] + b + [46] + c + [46] + d, 46) == [a, b, c, d]
  {
    assert a + [46] + b + [46] + c + [46] + d == a + [46] + (b + [46] + (c + [46] + d));
    SplitFirst(a, 46, b + [46] + (c + [46] + d));
    SplitFirst(b, 46, c + [46] + d);
    SplitFirst(c, 46, d);
    SplitWhole(d, 46);
  }

  lemma {:induction false} VerifyParts(mac: Mac, a: Bytes, b: Bytes, c: Bytes, tag: Bytes, now: int, uid: Bytes, epoch: int)
    requires 46 !in a && 46 !in b && 46 !in c && 46 !in tag
    ensures Verify(mac, a + [46] + b + [46] + c + [46] + tag, now) == Some((uid, epoch)) <==>
      PartsSay(mac, a, b, c, tag, now, uid, epoch)
  {
    FourSplit(a, b, c, tag);
    if ReadNumber(b).Some? {
      NotYet(now, ReadNumber(b).value);
    }
  }

  lemma NotYet(now: int, second: int)
    ensures ToUnix(now) < second <==> now < second * 1_000_000_000
  {
  }

  // What is accepted, exactly.
  lemma {:induction false} VerifyMeaning(mac: Mac, value: Bytes, now: int, uid: Bytes, epoch: int)
    ensures Verify(mac, value, now) == Some((uid, epoch)) <==> Says(mac, value, now, uid, epoch)
  {
    if Verify(mac, value, now) == Some((uid, epoch)) {
      var parts := Split(value, 46);
      JoinSplit(value, 46);
      FourJoined(parts);
      SplitPartsFree(value, 46);
      VerifyParts(mac, parts[0], parts[1], parts[2], parts[3], now, uid, epoch);
    }
    if Says(mac, value, now, uid, epoch) {
      var a, b, c, tag :| PartsSay(mac, a, b, c, tag, now, uid, epoch) && value == a + [46] + b + [46] + c + [46] + tag;
      VerifyParts(mac, a, b, c, tag, now, uid, epoch);
    }
  }

  // Whatever is accepted, however it was spelled, says exactly what some signed cookie says.
  lemma {:induction false} AcceptedWasSigned(mac: Mac, signed: set<Grant>, value: Bytes, now: int) returns (g: Grant)
    requires Unforgeable(mac, signed, value) && (forall h | h in signed :: Representable(h))
    requires Verify(mac, value, now).Some?
    ensures g in signed && Verify(mac, value, now) == Some((g.uid, g.epoch)) && ToUnix(now) < g.expiry
  {
    var parts := Split(value, DOT);
    var text := parts[0] + [46] + parts[1] + [46] + parts[2];
    JoinSplit(value, 46);
    FourJoined(parts);
    SplitPartsFree(value, 46);
    assert value == text + [46] + parts[3];
    g :| g in signed && Payload(g) == text;
    PayloadSplits(g, parts[0], parts[1], parts[2]);
    FieldsReadBack(g);
  }
}
