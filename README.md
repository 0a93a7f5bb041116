# SIP URI scanner

A Dafny model of the `Uri` entity of the Vocal2 SIP stack (`Uri.cxx`). Its
centre is `Uri::parse`, a hand-written scanner for the `SIP-URI` and
`SIPS-URI` forms of RFC 3261 (components in section 19.1.1). The scanner moves
a `ParseBuffer` cursor through a character buffer. It assigns the scheme, the
user, the password, the host (an IPv6 reference keeps its `[`) and the port in
place. Around it sit the address-of-record accessor `getAor`, which rewrites a
cached text, the copy constructor and `clone`.

The model has six modules:

- `Wrappers`: `Option` and `Result`.
- `Symbols`: the characters, scheme names, default port and delimiter sets the
  scanner names.
- `ParseBuffers`: the cursor class `ParseBuffer` and the scan function
  `IndexOfAny`, with the lemmas that say where a scan stops.
- `Decimal`: the decimal text `Data(int)` gives a port, and C's `atoi`.
- `UriGrammar`: the scanner as a pure reference function `ParseUri`, built from
  one function per step (`ScanUserInfo`, `ScanHost`, `ScanPort`). The lemmas
  here say which slice of the buffer each step takes, and that an
  address-of-record scans back into its parts.
- `SipUri`: the class `Uri`. Its fields are updated in place by `Parse`
  (split into the user-info step, `Uri.cxx:35-54`, and the host/port step,
  `Uri.cxx:56-75`) and by `GetAor`. The class also has the copy constructor `Copy` and `Clone`. Each
  method's contract ties the new fields and the cursor to the reference
  function.

Assumptions about code that is not part of this model:

- `ParseBuffer.hxx`/`ParseBuffer.cxx` are not part of this model. `skipToChar`
  and `skipToOneOf` move to the first matching character, or to the end.
  `skipChar` steps over one character and returns the new position. `eof`
  means the cursor is at the end, and `reset` moves the cursor back.
- The whitespace that ends a host or a port is taken to be space, tab, CR
  and LF.
- Dereferencing the cursor at the end of the buffer (`Uri.cxx:43`, `:56`,
  `:66`) is taken to match no character. So a host that runs to the end of
  the buffer gets the default port.
- `Symbols.hxx` is not part of this model. `DefaultSipPort` is 5060, and the
  source uses it for `sips` too.
- `Uri.hxx` is not part of this model. The default constructor is taken to
  leave every text empty and the port 0.
- `atoi(start)` at `Uri.cxx:70` reads from the character after the `:`, and it
  is not bounded by the cursor's later stop. It is taken to stop at the end of
  the buffer (C's `atoi` itself stops only at a non-digit or a NUL, which may
  lie past the buffer when the buffer is not NUL-terminated). It is modelled as
  C's `atoi`: leading `isspace` characters are skipped, then an
  optional sign is read, then the digits that follow (0 if there are none).
  For example, `sip:h: 7` gets port 7, while the cursor stops at the space.
- `assert(0)` for a scheme other than `sip`/`sips` (`Uri.cxx:80`) becomes the
  error `UnsupportedScheme`. By then the scheme has been assigned and the
  cursor is past the `:`; no other field changes.
- With no `:` at all, `skipChar` at `Uri.cxx:32` would step past the end of the
  buffer. This becomes the error `ReadPastEnd`, with the scheme assigned and
  the cursor at the end.

## Model

| member | source | states |
|---|---|---|
| ParseBuffers.IndexOfAny | Uri.cxx:30 | the scan behind `skipToChar` and `skipToOneOf`: a position between the start and the end of the buffer, the first character of the set at or after the start, or the end |
| ParseBuffers.ParseBuffer.Eof | Uri.cxx:37 | `eof()`: the cursor is at the end of the buffer |
| ParseBuffers.ParseBuffer.CharIs | Uri.cxx:43 | the reads `*pb.position()` and `*start` (also at `Uri.cxx:56` and `:66`): true only for a position inside the buffer holding that character, so the end of the buffer matches no character |
| UriGrammar.ScanUserInfo | Uri.cxx:35-54 | the user-info step: with no `@` after the start, no user or password and the host at the start; otherwise the user up to the first `:` or `@`, a password after a `:` up to the next `@`, and the host one past the `@`; the host start lies between the start and the end |
| UriGrammar.ScanHost | Uri.cxx:56-64 | the host step: where a host ends, at the first `]` for a host starting with `[`, otherwise at the first whitespace, `:`, `;` or `>`, or at the end; never before its start |
| UriGrammar.ScanPort | Uri.cxx:65-75 | the port step: `atoi` of the text after a `:` at the first host stop, with the cursor at the next port stop, or `DefaultSipPort` with the cursor at that host stop; the cursor never moves back |
| UriGrammar.ParseUri | Uri.cxx:26-83 | `Uri::parse` as a function: the scheme up to the first `:`, `ReadPastEnd` without one, `UnsupportedScheme` for a scheme other than `sip`/`sips`, otherwise the user-info, host and port steps in turn; the cursor stays within the buffer and never moves back |
| UriGrammar.Aor | Uri.cxx:22 | the address-of-record text: user, `@`, host, `:`, then the port's decimal text, the `@` present even for an empty user |
| Decimal.AtoI | Uri.cxx:70 | C's `atoi` up to the end of the text: leading `isspace` characters (space, tab, LF, VT, FF, CR) are skipped, an optional `-` or `+` is read, then the value of the digits that follow, 0 when there are none |
| ParseBuffers.IndexOfAnyStops | Uri.cxx:30 | the position a scan for a set of characters reaches: every character before it is outside the set, and it is the end or a character of the set |
| ParseBuffers.IndexOfAnyIs | Uri.cxx:41 | any position with that stop property is the scan's result, so the scan is the first matching character |
| ParseBuffers.StopsNoLaterThan | Uri.cxx:36-41 | a scan stops no later than any character of its set, so the `:`/`@` scan stops at or before the `@` found by the lookahead |
| ParseBuffers.ParseBuffer.SkipToChar | Uri.cxx:30 | `skipToChar` moves the cursor to the first occurrence of the character, or to the end |
| ParseBuffers.ParseBuffer.SkipToOneOf | Uri.cxx:41 | `skipToOneOf` moves the cursor to the first character of the set, or to the end |
| ParseBuffers.ParseBuffer.SkipChar | Uri.cxx:45 | `skipChar` steps one character forward and returns the new position, and it is only called before the end |
| ParseBuffers.ParseBuffer.Reset | Uri.cxx:39 | `reset` puts the cursor back at a saved position |
| UriGrammar.SchemeBeforeFirstColon | Uri.cxx:29-33 | the scheme is exactly the text before the first `:`. With no `:` the result is `ReadPastEnd`. With a `:` and a scheme other than `sip`/`sips` it is `UnsupportedScheme`, just past the `:`. Otherwise the user-info, host and port steps run from just past the `:` |
| UriGrammar.UserInfoSlices | Uri.cxx:35-54 | no `@` in the rest of the buffer if and only if no user is assigned; then no password either, and the host starts right after the scheme's `:`. Otherwise the user is the text up to the first `:` or `@` and holds neither, a password is taken if and only if that stop is `:`, and without one the host starts one past the `@` |
| UriGrammar.PasswordSlice | Uri.cxx:43-49 | a password comes only after a user and its `:`, is the text up to the next `@` and holds no `@`, and the host starts one past that `@` |
| UriGrammar.HostSlice | Uri.cxx:56-64 | a host starting with `[` keeps the `[`, holds no `]` and stops at the first `]` or the end. Any other host is the longest run with no whitespace, `:`, `;` or `>` |
| UriGrammar.PortChoice | Uri.cxx:65-75 | after the host the cursor stops at the first whitespace, `:`, `;` or `>`. At a `:` the port is what `atoi` reads after it and the cursor stops at the next whitespace, `;` or `>`. Anywhere else, the end included, the port is `DefaultSipPort` and the cursor stays there |
| UriGrammar.FieldsInBufferOrder | Uri.cxx:35-70 | every field of a successful scan is a slice of the buffer. The slices come in buffer order: user, `:`, password, `@`, host. The cursor ends at or after the host |
| UriGrammar.UserBeforeAtSign | Uri.cxx:39-49 | a user-info with no `:` before its `@` gives that user, no password, and the host one past the `@` |
| UriGrammar.HostBeforeStop | Uri.cxx:56-64 | an unbracketed host free of stop characters ends at the next stop character |
| UriGrammar.PortToEnd | Uri.cxx:65-71 | a `:` followed by a port text that runs to the end gives the port `atoi` reads, and leaves the cursor at the end |
| UriGrammar.UserHostPortScan | Uri.cxx:35-75 | user up to `@`, host up to `:`, port text to the end: the steps after the scheme take exactly these and consume the buffer |
| UriGrammar.SipUriScan | Uri.cxx:29-75 | a `sip`/`sips` scheme followed by such a user, host and port scans into exactly those fields, with no password and the whole buffer consumed |
| UriGrammar.AorLayout | Uri.cxx:22 | where the scheme, `:`, user, `@`, host, `:` and port text sit in `scheme ":" getAor()` |
| UriGrammar.IntTextIsPort | Uri.cxx:69-70 | `atoi` reads the decimal text of a port back as that port, and the text holds none of the characters that end a port |
| UriGrammar.AorReparses | Uri.cxx:17-24 | the address-of-record, after a `sip:` or `sips:` prefix, scans back into the same user (empty included), host and port, with no password and the whole text consumed, whenever the user holds no `:`/`@` and the host no delimiter and no leading `[` |
| Decimal.NatText | Uri.cxx:22 | the decimal text of a natural number is non-empty, all digits, and has no leading zero unless the number is zero |
| Decimal.IntText | Uri.cxx:22 | `Data(int)` is non-empty, starts with `-` exactly for a negative number, and otherwise holds only digits |
| Decimal.ReadDigitsThrough | Uri.cxx:70 | `atoi`'s digit loop runs through a digit text and carries on with what follows it |
| Decimal.NatTextValue | Uri.cxx:70 | the digit loop reads the decimal text of `n` as `n` |
| Decimal.NoSpaceToDrop | Uri.cxx:70 | `atoi` skips no whitespace before a digit or a `-` |
| Decimal.AtoIOfIntText | Uri.cxx:70 | `atoi` of `Data(n)`, followed by anything that does not start with a digit, is `n`: a round trip for negative numbers too |
| SipUri.Uri.Parse | Uri.cxx:26-83 | `parse` always assigns the scheme and leaves the cursor where `ParseUri` does. On an error it returns that error and no other field changes. On success the host and port are assigned, and the user and password only when the user-info holds them (otherwise they keep their old values) |
| SipUri.Uri.ParseUserInfo | Uri.cxx:35-54 | the `@` lookahead, the reset and the user/password slices match `ScanUserInfo`, and the cursor is left at the host |
| SipUri.Uri.ParseHostPort | Uri.cxx:56-75 | the host is the slice `ScanHost` gives, the port and final cursor are the ones `ScanPort` gives |
| SipUri.Uri.GetAor | Uri.cxx:17-24 | `getAor` rewrites only the cache, with user, `@`, host, `:` and the port's decimal text, and returns it |
| SipUri.GetAorTwice | Uri.cxx:17-24 | two `getAor` calls with no field change in between return the same text |
| SipUri.Uri.Copy | Uri.cxx:6-15 | the copy has the same scheme, host, user, address-of-record cache, port and password |
| SipUri.Uri.Clone | Uri.cxx:85-89 | `clone` returns a new URI, distinct from the original, with all six fields equal |

## Left out

- `Uri::encode` and `Uri::parseEmbeddedHeaders` (`Uri.cxx:91-102`) are `assert(0)` stubs with no behaviour, so no encoder and no print/parse round trip are modelled.
- `resip/recon/UserAgentClientSubscription.hxx` declares subscription callbacks with no logic to model.
- The `ParserCategory` base class, which both the copy constructor and `clone` pass through, is not modelled, and neither is its state.
- `clone` returns an owning pointer to a heap object of the base type. The model returns a fresh `Uri` and does not capture ownership or deletion.
- `getAor` writes its cache from a `const` accessor. Concurrent callers are not modelled.
- Generic (non-`sip`) URLs: the source has no parser for them, only the `assert(0)` the model turns into an error.
- Decimal.AtoIOfIntText: C's `atoi` overflow is not modelled, because integers are unbounded here; the port field is an unbounded `int` too.
- The cursor's byte pointers become natural-number positions into a `string` of characters.
- `ParseBuffer` error reporting beyond reading past the end is not modelled, because its implementation is not part of this model.
