/**
 * The `Uri` entity: the fields `Uri::parse` fills in place from a
 * `ParseBuffer`, the address-of-record cache `getAor` rewrites, the copy
 * constructor and `clone`.
 */
module SipUri {
  import opened Wrappers
  import opened Symbols
  import opened ParseBuffers
  import opened UriGrammar

  class Uri {
    var scheme: string
    var host: string
    var user: string
    var aor: string
    var port: int
    var password: string

    /** An empty URI, ready for `Parse`. */
    constructor ()
      ensures scheme == [] && host == [] && user == [] && aor == [] && port == 0 && password == []
    {
      scheme, host, user, aor, port, password := [], [], [], [], 0, [];
    }

    /** `Uri(const Uri&)`: every field, the address-of-record cache included, is copied. */
    constructor Copy(rhs: Uri)
      ensures SameFields(rhs)
    {
      scheme := rhs.scheme;
      host := rhs.host;
      user := rhs.user;
      aor := rhs.aor;
      port := rhs.port;
      password := rhs.password;
    }

    /** This URI and `other` hold the same scheme, host, user, address-of-record, port and password. */
    predicate SameFields(other: Uri)
      reads this, other
    {
      && scheme == other.scheme && host == other.host && user == other.user
      && aor == other.aor && port == other.port && password == other.password
    }

    /** `clone()`: a new URI, distinct from this one, with the same fields. */
    method Clone() returns (c: Uri)
      ensures fresh(c) && c.SameFields(this)
    {
      c := new Uri.Copy(this);
    }

    /**
     * `getAor()`: rewrites the cache with `user "@" host ":" port` and returns
     * it; no other field changes.
     */
    method GetAor() returns (r: string)
      modifies this`aor
      ensures aor == Aor(user, host, port) && r == aor
    {
      aor := user + [AtSign] + host + [Colon] + Decimal.IntText(port);
      r := aor;
    }

    /**
     * `parse(pb)`: scans the URI at the cursor of `pb`. The scheme is always
     * assigned. On success the host and port are assigned, and the user and
     * password only when the user-info holds them; on failure nothing else is.
     * The cursor ends where `ParseUri` says it does.
     */
    method Parse(pb: ParseBuffer) returns (err: Option<ParseError>)
      requires pb.Valid()
      modifies this`scheme, this`user, this`password, this`host, this`port, pb`pos
      ensures pb.Valid()
      ensures scheme == ParseUri(pb.buf, old(pb.pos)).scheme
      ensures pb.pos == ParseUri(pb.buf, old(pb.pos)).next
      ensures var r := ParseUri(pb.buf, old(pb.pos)).fields;
        r.Failure? ==>
          && err == Some(r.error)
          && user == old(user) && password == old(password)
          && host == old(host) && port == old(port)
      ensures var r := ParseUri(pb.buf, old(pb.pos)).fields;
        r.Success? ==>
          && err == None
          && user == r.value.user.GetOr(old(user)) && password == r.value.password.GetOr(old(password))
          && host == r.value.host && port == r.value.port
    {
      var start := pb.pos;
      pb.SkipToChar(Colon);
      scheme := pb.buf[start..pb.pos];
      if pb.Eof() {
        // skipChar() would step past the end of the buffer
        return Some(ReadPastEnd);
      }
      var _ := pb.SkipChar();
      if IsSipScheme(scheme) {
        ghost var sip := ScanSip(pb.buf, pb.pos);
        start := ParseUserInfo(pb);
        ParseHostPort(pb, start);
        assert user == sip.fields.user.GetOr(old(user));
        err := None;
      } else {
        // any other scheme would be a generic URL, which is not scanned
        err := Some(UnsupportedScheme);
      }
    }

    /**
     * The user-info part of `parse`: looks ahead for an `@`, then either goes
     * back and takes the user (and the password after a `:`) up to it, or goes
     * back and leaves the user and password as they were. Returns where the
     * host begins, with the cursor there.
     */
    method ParseUserInfo(pb: ParseBuffer) returns (start: nat)
      requires pb.Valid()
      modifies this`user, this`password, pb`pos
      ensures pb.Valid()
      ensures var u := ScanUserInfo(pb.buf, old(pb.pos));
        && start == pb.pos == u.hostStart
        && user == u.user.GetOr(old(user)) && password == u.password.GetOr(old(password))
    {
      ghost var buf := pb.buf;
      start := pb.pos;
      pb.SkipToChar(AtSign);
      if !pb.Eof() {
        ghost var at := pb.pos;
        IndexOfAnyStops(buf, start, {AtSign});
        pb.Reset(start);
        start := pb.pos;
        pb.SkipToOneOf(ColonOrAtSign);
        IndexOfAnyStops(buf, start, ColonOrAtSign);
        StopsNoLaterThan(buf, start, ColonOrAtSign, pb.pos, at);
        user := pb.buf[start..pb.pos];
        if pb.CharIs(pb.pos, Colon) {
          start := pb.SkipChar();
          pb.SkipToChar(AtSign);
          IndexOfAnyStops(buf, start, {AtSign});
          StopsNoLaterThan(buf, start, {AtSign}, pb.pos, at);
          password := pb.buf[start..pb.pos];
        }
        start := pb.SkipChar();
      } else {
        pb.Reset(start);
      }
    }

    /**
     * The host and port part of `parse`, from the host's first character at
     * `start`: takes the host, then the port after a `:` or the default port.
     */
    method ParseHostPort(pb: ParseBuffer, start: nat)
      requires pb.Valid() && start == pb.pos
      modifies this`host, this`port, pb`pos
      ensures pb.Valid()
      ensures var e := ScanHost(pb.buf, start);
        var p := ScanPort(pb.buf, e);
        host == pb.buf[start..e] && port == p.port && pb.pos == p.next
    {
      if pb.CharIs(start, '[') {
        pb.SkipToChar(']');
      } else {
        pb.SkipToOneOf(HostStops);
      }
      host := pb.buf[start..pb.pos];
      pb.SkipToOneOf(HostStops);
      if pb.CharIs(pb.pos, Colon) {
        var portStart := pb.SkipChar();
        pb.SkipToOneOf(PortStops);
        port := Decimal.AtoI(pb.buf[portStart..]);
      } else {
        port := DefaultSipPort;
      }
    }
  }

  /** `getAor()` read twice with no field change in between gives the same text both times. */
  method GetAorTwice(u: Uri) returns (first: string, second: string)
    modifies u`aor
    ensures first == second == u.aor == Aor(u.user, u.host, u.port)
  {
    first := u.GetAor();
    second := u.GetAor();
  }
}
