/**
 * The named characters, scheme names, default port and delimiter sets the URI
 * scanner uses. In the repository they live in `Symbols` and `ParseBuffer`,
 * neither of which is part of this model; the values here are the ones
 * assumed for them. The characters `:` and `@` and the scheme names are those
 * of RFC 3261 (section 19.1.1); the delimiter sets stand for `ParseBuffer`'s,
 * with its whitespace set assumed to be space, tab, CR and LF; and
 * the one default port is used for `sips` as well (where RFC 3261 gives 5061).
 */
module Symbols {

  const Colon: char := ':'
  const AtSign: char := '@'

  const Sip: string := "sip"
  const Sips: string := "sips"

  /** The one default port the scanner uses, for `sip` and `sips` alike. */
  const DefaultSipPort: int := 5060

  /** The characters `ParseBuffer` treats as whitespace. */
  const Whitespace: set<char> := {' ', '\t', '\r', '\n'}

  /** `ParseBuffer::ColonOrAtSign`: where the user part of the user-info ends. */
  const ColonOrAtSign: set<char> := {':', '@'}

  /** `ParseBuffer::WhitespaceOrColonOrSemiColonOrRAQuote`: where a host ends. */
  const HostStops: set<char> := Whitespace + {':', ';', '>'}

  /** `ParseBuffer::WhitespaceOrSemiColonOrRAQuote`: where a port ends. */
  const PortStops: set<char> := Whitespace + {';', '>'}
}
