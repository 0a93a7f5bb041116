/**
 * The SIP URI scanner of `Uri::parse` as a function of the buffer and the
 * starting position: the scheme up to the first `:`, then for `sip` and `sips`
 * the user-info (`user [":" password] "@"`), the host and the port of RFC 3261
 * section 19.1.1. Each stage below is one step of the scanner, and its
 * contract says which slice of the buffer that step takes.
 */
module UriGrammar {
  import opened Wrappers
  import opened Symbols
  import opened ParseBuffers
  import opened Decimal

  /** Why a scan stops short: no `:` after the scheme, or a scheme other than `sip`/`sips`. */
  datatype ParseError = ReadPastEnd | UnsupportedScheme

  /** What a successful scan assigns; a `None` user or password is left as it was. */
  datatype SipFields = SipFields(user: Option<string>, password: Option<string>, host: string, port: int)

  /** The scheme (assigned on every path), the outcome, and where the cursor is left. */
  datatype Parsed = Parsed(scheme: string, fields: Result<SipFields, ParseError>, next: nat)

  /** The fields the steps after the scheme assign, and where they leave the cursor. */
  datatype SipScan = SipScan(fields: SipFields, next: nat)

  /** The user-info found after the scheme, and where the host begins. */
  datatype UserInfo = UserInfo(user: Option<string>, password: Option<string>, hostStart: nat)

  /** The port read after the host, and where the cursor is left. */
  datatype PortScan = PortScan(port: int, next: nat)

  /**
   * The user-info step. With no `@` anywhere after `start` there is no
   * user-info and the host begins at `start`. Otherwise the user runs up to the
   * first `:` or `@`; only a `:` there introduces a password, which runs up to
   * the next `@`; the host begins just past that `@`.
   */
  function ScanUserInfo(buf: string, start: nat): (u: UserInfo)
    requires start <= |buf|
    ensures start <= u.hostStart <= |buf|
  {
    var at := IndexOfAny(buf, start, {AtSign});
    if at == |buf| then
      UserInfo(None, None, start)
    else
      IndexOfAnyStops(buf, start, {AtSign});
      var n := IndexOfAny(buf, start, ColonOrAtSign);
      IndexOfAnyStops(buf, start, ColonOrAtSign);
      StopsNoLaterThan(buf, start, ColonOrAtSign, n, at);
      if buf[n] == Colon then
        var e := IndexOfAny(buf, n + 1, {AtSign});
        IndexOfAnyStops(buf, n + 1, {AtSign});
        StopsNoLaterThan(buf, n + 1, {AtSign}, e, at);
        UserInfo(Some(buf[start..n]), Some(buf[n + 1..e]), e + 1)
      else
        UserInfo(Some(buf[start..n]), None, n + 1)
  }

  /**
   * The host step: where the host that begins at `h` ends. A host that begins
   * with `[` (an IPv6 reference) runs up to the first `]`, so it keeps its `[`
   * and not its `]`; any other host runs up to the first whitespace, `:`, `;`
   * or `>`. Either runs to the end of the buffer when no such character follows.
   */
  function ScanHost(buf: string, h: nat): (e: nat)
    requires h <= |buf|
    ensures h <= e <= |buf|
  {
    if h < |buf| && buf[h] == '[' then
      IndexOfAny(buf, h, {']'})
    else
      IndexOfAny(buf, h, HostStops)
  }

  /**
   * The port step, from the end `e` of the host: the cursor skips to the first
   * whitespace, `:`, `;` or `>`. At a `:` the port is what `atoi` reads after
   * it and the cursor moves on to the first whitespace, `;` or `>`; anywhere
   * else, the end of the buffer included, the port is the default one.
   */
  function ScanPort(buf: string, e: nat): (r: PortScan)
    requires e <= |buf|
    ensures e <= r.next <= |buf|
  {
    var d := IndexOfAny(buf, e, HostStops);
    if d < |buf| && buf[d] == Colon then
      PortScan(AtoI(buf[d + 1..]), IndexOfAny(buf, d + 1, PortStops))
    else
      PortScan(DefaultSipPort, d)
  }

  /**
   * The steps after a `sip:` or `sips:` scheme, from `start` just past its
   * `:`: user-info, then host, then port.
   */
  function ScanSip(buf: string, start: nat): (r: SipScan)
    requires start <= |buf|
    ensures start <= r.next <= |buf|
  {
    var info := ScanUserInfo(buf, start);
    var e := ScanHost(buf, info.hostStart);
    var p := ScanPort(buf, e);
    SipScan(SipFields(info.user, info.password, buf[info.hostStart..e], p.port), p.next)
  }

  /** The two schemes the scanner goes on with. */
  predicate IsSipScheme(scheme: string) {
    scheme == Sip || scheme == Sips
  }

  /**
   * `Uri::parse` from position `from`: the scheme is the text before the first
   * `:`. Without a `:` the scan runs off the end of the buffer; with a scheme
   * other than `sip` or `sips` it stops just past the `:`; otherwise the
   * user-info, host and port steps follow in turn.
   */
  function ParseUri(buf: string, from: nat): (r: Parsed)
    requires from <= |buf|
    ensures from <= r.next <= |buf|
  {
    var c := IndexOfAny(buf, from, {Colon});
    var scheme := buf[from..c];
    if c == |buf| then
      Parsed(scheme, Failure(ReadPastEnd), c)
    else if !IsSipScheme(scheme) then
      Parsed(scheme, Failure(UnsupportedScheme), c + 1)
    else
      var sip := ScanSip(buf, c + 1);
      Parsed(scheme, Success(sip.fields), sip.next)
  }

  /** `getAor()`'s text: `user "@" host ":" port`, the `@` present even for an empty user. */
  function Aor(user: string, host: string, port: int): string
  {
    user + [AtSign] + host + [Colon] + IntText(port)
  }

  /**
   * The scheme is exactly the text before the first `:` after `from`. The scan
   * runs off the end of the buffer when there is no `:`, stops just past it for
   * a scheme other than `sip` or `sips`, and goes on for those two only.
   */
  lemma SchemeBeforeFirstColon(buf: string, from: nat)
    requires from <= |buf|
    ensures var r := ParseUri(buf, from);
      var c := from + |r.scheme|;
      && c <= |buf| && buf[from..c] == r.scheme && Colon !in r.scheme
      && (c < |buf| ==> buf[c] == Colon)
      && (r.fields == Failure(ReadPastEnd) <==> c == |buf|)
      && (r.fields == Failure(UnsupportedScheme) <==> c < |buf| && r.scheme != Sip && r.scheme != Sips)
      && (r.fields.Success? <==> c < |buf| && (r.scheme == Sip || r.scheme == Sips))
      && (r.fields.Failure? ==> r.next == if c == |buf| then c else c + 1)
      && (r.fields.Success? ==> Success(ScanSip(buf, c + 1).fields) == r.fields && ScanSip(buf, c + 1).next == r.next)
  {
    IndexOfAnyStops(buf, from, {Colon});
  }

  /**
   * The user-info step takes slices of the buffer: with no `@` after `start`
   * there is no user or password and the host begins at `start`; otherwise the
   * user is the text up to the first `:` or `@`, a password is taken exactly
   * when that character is `:`, and without one the host begins just past
   * the user's `@`.
   */
  lemma UserInfoSlices(buf: string, start: nat)
    requires start <= |buf|
    ensures var u := ScanUserInfo(buf, start);
      && (u.user.None? <==> AtSign !in buf[start..])
      && (u.user.None? ==> u.password.None? && u.hostStart == start)
      && (u.user.Some? ==>
            var n := start + |u.user.value|;
            && n < |buf| && buf[start..n] == u.user.value
            && NoneOf(u.user.value, ColonOrAtSign) && buf[n] in ColonOrAtSign
            && (u.password.Some? <==> buf[n] == Colon)
            && (u.password.None? ==> u.hostStart == n + 1))
  {
    var at := IndexOfAny(buf, start, {AtSign});
    IndexOfAnyStops(buf, start, {AtSign});
    if at == |buf| {
      assert buf[start..] == buf[start..at];
    } else {
      assert buf[start..][at - start] == AtSign;
      var n := IndexOfAny(buf, start, ColonOrAtSign);
      IndexOfAnyStops(buf, start, ColonOrAtSign);
      StopsNoLaterThan(buf, start, ColonOrAtSign, n, at);
      assert ScanUserInfo(buf, start).user == Some(buf[start..n]);
    }
  }

  /**
   * A password is the text after the user's `:` up to the next `@`, and the
   * host begins one past that `@`.
   */
  lemma PasswordSlice(buf: string, start: nat)
    requires start <= |buf|
    ensures var u := ScanUserInfo(buf, start);
      u.password.Some? ==>
        && u.user.Some?
        && var p := start + |u.user.value| + 1;
           var e := p + |u.password.value|;
           && e < |buf| && buf[p..e] == u.password.value
           && AtSign !in u.password.value && buf[e] == AtSign
           && u.hostStart == e + 1
  {
    var at := IndexOfAny(buf, start, {AtSign});
    if at < |buf| {
      IndexOfAnyStops(buf, start, {AtSign});
      var n := IndexOfAny(buf, start, ColonOrAtSign);
      IndexOfAnyStops(buf, start, ColonOrAtSign);
      StopsNoLaterThan(buf, start, ColonOrAtSign, n, at);
      if buf[n] == Colon {
        var e := IndexOfAny(buf, n + 1, {AtSign});
        IndexOfAnyStops(buf, n + 1, {AtSign});
        StopsNoLaterThan(buf, n + 1, {AtSign}, e, at);
        assert ScanUserInfo(buf, start) == UserInfo(Some(buf[start..n]), Some(buf[n + 1..e]), e + 1);
        assert AtSign !in buf[n + 1..e] by {
          assert NoneOf(buf[n + 1..e], {AtSign});
        }
      }
    }
  }

  /**
   * The host step: a host that begins with `[` keeps the `[`, holds no `]`, and
   * stops at the first `]` (which it drops) or at the end; any other host holds
   * no whitespace, `:`, `;` or `>` and stops at the first of them or at the end.
   */
  lemma HostSlice(buf: string, h: nat)
    requires h <= |buf|
    ensures var e := ScanHost(buf, h);
      var host := buf[h..e];
      if h < |buf| && buf[h] == '[' then
        && |host| > 0 && host[0] == '['
        && ']' !in host
        && (e == |buf| || buf[e] == ']')
      else
        && NoneOf(host, HostStops)
        && (e == |buf| || buf[e] in HostStops)
  {
    if h < |buf| && buf[h] == '[' {
      IndexOfAnyStops(buf, h, {']'});
    } else {
      IndexOfAnyStops(buf, h, HostStops);
    }
  }

  /**
   * The port step: from the end `e` of the host the cursor stops at `d`, the
   * first whitespace, `:`, `;` or `>`. At a `:` the port is what `atoi` reads after
   * it and the cursor stops at the next whitespace, `;` or `>`; at any other
   * stop, the end of the buffer included, the port is the default one.
   */
  lemma PortChoice(buf: string, e: nat, d: nat)
    requires e <= |buf| && StopsAt(buf, e, HostStops, d)
    ensures var r := ScanPort(buf, e);
      if d < |buf| && buf[d] == Colon then
        r.port == AtoI(buf[d + 1..]) && StopsAt(buf, d + 1, PortStops, r.next)
      else
        r.port == DefaultSipPort && r.next == d
  {
    IndexOfAnyIs(buf, e, HostStops, d);
    if d < |buf| && buf[d] == Colon {
      IndexOfAnyStops(buf, d + 1, PortStops);
    }
  }
  /** Where the host begins, after the user-info `f` holds, for a scan after the scheme from `start`. */
  function HostOffset(start: nat, f: SipFields): nat
  {
    start
    + (if f.user.Some? then |f.user.value| + 1 else 0)
    + (if f.password.Some? then |f.password.value| + 1 else 0)
  }

  /**
   * After the scheme's `:` at `start - 1`, every field is a slice of the
   * buffer, and the slices come in buffer order with one delimiter between
   * them: the user, `:`, the password, `@`, the host; the cursor is left at or
   * after the end of the host.
   */
  lemma FieldsInBufferOrder(buf: string, start: nat)
    requires start <= |buf|
    ensures var r := ScanSip(buf, start);
      var f := r.fields;
      var h := HostOffset(start, f);
      && (f.user.Some? ==> buf[start..start + |f.user.value|] == f.user.value)
      && (f.password.Some? ==>
            && f.user.Some? && buf[start + |f.user.value|] == Colon
            && var p := start + 1 + |f.user.value|;
               buf[p..p + |f.password.value|] == f.password.value)
      && (f.user.Some? ==> buf[h - 1] == AtSign)
      && h + |f.host| <= r.next && buf[h..h + |f.host|] == f.host
  {
    var u := ScanUserInfo(buf, start);
    UserInfoSlices(buf, start);
    PasswordSlice(buf, start);
    var f := ScanSip(buf, start).fields;
    assert f.user == u.user && f.password == u.password;
    assert HostOffset(start, f) == u.hostStart;
  }
  /** A user-info slice free of `:` and `@`, followed by an `@`, is a user without a password. */
  lemma UserBeforeAtSign(buf: string, start: nat, a: nat)
    requires start <= a < |buf| && buf[a] == AtSign
    requires NoneOf(buf[start..a], ColonOrAtSign)
    ensures ScanUserInfo(buf, start) == UserInfo(Some(buf[start..a]), None, a + 1)
  {
    assert NoneOf(buf[start..a], {AtSign});
    IndexOfAnyIs(buf, start, {AtSign}, a);
    IndexOfAnyIs(buf, start, ColonOrAtSign, a);
  }

  /** A host slice free of the host's stop characters, not opening with `[`, ends at the next stop. */
  lemma HostBeforeStop(buf: string, h: nat, q: nat)
    requires StopsAt(buf, h, HostStops, q)
    requires h == q || buf[h] != '['
    ensures ScanHost(buf, h) == q
  {
    IndexOfAnyIs(buf, h, HostStops, q);
  }

  /** No character of a number's decimal text ends a port. */
  lemma NumeralCharNotPortStop(c: char)
    requires IsDigit(c) || c == '-'
    ensures c !in PortStops
  {
    assert PortStops == {' ', '\t', '\r', '\n', ';', '>'};
  }

  /** A number's decimal text reads back as the number, and holds none of the characters that end a port. */
  lemma IntTextIsPort(n: int)
    ensures AtoI(IntText(n)) == n
    ensures NoneOf(IntText(n), PortStops)
  {
    var t := IntText(n);
    AtoIOfIntText(n, []);
    assert t + [] == t;
    forall i | 0 <= i < |t|
      ensures t[i] !in PortStops
    {
      NumeralCharNotPortStop(t[i]);
    }
  }

  /**
   * A `:` followed, to the end of the buffer, by a text free of the port's
   * stop characters: the port is what `atoi` reads from that text, and the
   * cursor ends at the end of the buffer.
   */
  lemma PortToEnd(buf: string, q: nat)
    requires q < |buf| && buf[q] == Colon && NoneOf(buf[q + 1..], PortStops)
    ensures ScanPort(buf, q) == PortScan(AtoI(buf[q + 1..]), |buf|)
  {
    assert StopsAt(buf, q, HostStops, q);
    PortChoice(buf, q, q);
    assert buf[q + 1..|buf|] == buf[q + 1..];
    StopsAtUnique(buf, q + 1, PortStops, |buf|, ScanPort(buf, q).next);
  }

  /**
   * A user free of `:` and `@` up to an `@` at `a`, a host up to a `:` at `q`,
   * and a port text to the end: the steps after the scheme take exactly these,
   * with no password, and consume the whole buffer.
   */
  lemma UserHostPortScan(buf: string, start: nat, a: nat, q: nat)
    requires start <= a < |buf| && buf[a] == AtSign && NoneOf(buf[start..a], ColonOrAtSign)
    requires StopsAt(buf, a + 1, HostStops, q) && q < |buf| && buf[q] == Colon
    requires a + 1 == q || buf[a + 1] != '['
    requires NoneOf(buf[q + 1..], PortStops)
    ensures ScanSip(buf, start)
      == SipScan(SipFields(Some(buf[start..a]), None, buf[a + 1..q], AtoI(buf[q + 1..])), |buf|)
  {
    UserBeforeAtSign(buf, start, a);
    HostBeforeStop(buf, a + 1, q);
    PortToEnd(buf, q);
  }

  /**
   * A `sip` or `sips` scheme up to the first `:` at `c`, then a user up to an
   * `@` at `a`, a host up to a `:` at `q` and a port text to the end: the
   * scanner takes exactly these fields and consumes the whole buffer.
   */
  lemma SipUriScan(buf: string, c: nat, a: nat, q: nat, scheme: string, user: string, host: string, port: int)
    requires StopsAt(buf, 0, {Colon}, c) && c < |buf| && buf[0..c] == scheme && IsSipScheme(scheme)
    requires c + 1 <= a < |buf| && buf[a] == AtSign && buf[c + 1..a] == user && NoneOf(user, ColonOrAtSign)
    requires StopsAt(buf, a + 1, HostStops, q) && q < |buf| && buf[q] == Colon && buf[a + 1..q] == host
    requires a + 1 == q || buf[a + 1] != '['
    requires NoneOf(buf[q + 1..], PortStops) && AtoI(buf[q + 1..]) == port
    ensures ParseUri(buf, 0) == Parsed(scheme, Success(SipFields(Some(user), None, host, port)), |buf|)
  {
    IndexOfAnyIs(buf, 0, {Colon}, c);
    UserHostPortScan(buf, c + 1, a, q);
  }

  /** Where the scheme, user, host and port text of `scheme ":" Aor(user, host, port)` sit. */
  lemma AorLayout(scheme: string, user: string, host: string, port: int)
    ensures var buf := scheme + [Colon] + Aor(user, host, port);
      var c := |scheme|;
      var a := c + 1 + |user|;
      var q := a + 1 + |host|;
      && q < |buf|
      && buf[0..c] == scheme && buf[c] == Colon
      && buf[c + 1..a] == user && buf[a] == AtSign
      && buf[a + 1..q] == host && buf[q] == Colon
      && buf[q + 1..] == IntText(port)
  {
    var buf := scheme + [Colon] + Aor(user, host, port);
    var c := |scheme|;
    var a := c + 1 + |user|;
    var q := a + 1 + |host|;
    assert buf == scheme + ([Colon] + (user + ([AtSign] + (host + ([Colon] + IntText(port))))));
  }

  /**
   * The address-of-record scans back into the user, host and port it was made
   * from: after a `sip:` or `sips:` prefix the scanner finds the user before
   * the `@` (no password), the host after it and the port after the next `:`,
   * and consumes the whole text. The user must hold no `:` or `@`, and the host
   * no whitespace, `:`, `;` or `>` and no leading `[`; an empty user is fine.
   */
  lemma AorReparses(scheme: string, user: string, host: string, port: int)
    requires IsSipScheme(scheme)
    requires NoneOf(user, ColonOrAtSign)
    requires NoneOf(host, HostStops) && (|host| == 0 || host[0] != '[')
    ensures var buf := scheme + [Colon] + Aor(user, host, port);
      ParseUri(buf, 0) == Parsed(scheme, Success(SipFields(Some(user), None, host, port)), |buf|)
  {
    var buf := scheme + [Colon] + Aor(user, host, port);
    var c := |scheme|;
    var a := c + 1 + |user|;
    var q := a + 1 + |host|;
    assert && StopsAt(buf, 0, {Colon}, c) && c < |buf| && buf[0..c] == scheme
           && c + 1 <= a < |buf| && buf[a] == AtSign && buf[c + 1..a] == user
           && StopsAt(buf, a + 1, HostStops, q) && q < |buf| && buf[q] == Colon && buf[a + 1..q] == host
           && (a + 1 == q || buf[a + 1] != '[')
           && NoneOf(buf[q + 1..], PortStops) && AtoI(buf[q + 1..]) == port
    by {
      AorLayout(scheme, user, host, port);
      IntTextIsPort(port);
    }
    SipUriScan(buf, c, a, q, scheme, user, host, port);
  }
}
