/**
 What the HTTP/2 constants are on the wire, written from the standards and not from the decoder: the
 static table of Appendix A of RFC 7541 and the connection preface of section 3.4 of RFC 9113.
 */
module HpackAppendix {
  import opened Bytes
  import opened HpackStatic

  /** US-ASCII, counted from the letter A, which is 65. */
  function Octets(s: string): (b: Str)
    ensures |b| == |s|
  {
    seq(|s|, i requires 0 <= i < |s| =>
      if s[i] < 256 as char then 65 + (s[i] as int - 'A' as int) else 63)
  }

  /** Header name and value of row `idx` of Appendix A. */
  function AppendixRow(idx: nat): (string, string)
    requires 1 <= idx <= STATIC_LEN
  {
    match idx
    case 1 => (":authority", "")
    case 2 => (":method", "GET")
    case 3 => (":method", "POST")
    case 4 => (":path", "/")
    case 5 => (":path", "/index.html")
    case 6 => (":scheme", "http")
    case 7 => (":scheme", "https")
    case 8 => (":status", "200")
    case 9 => (":status", "204")
    case 10 => (":status", "206")
    case 11 => (":status", "304")
    case 12 => (":status", "400")
    case 13 => (":status", "404")
    case 14 => (":status", "500")
    case 15 => ("accept-charset", "")
    case 16 => ("accept-encoding", "gzip, deflate")
    case 17 => ("accept-language", "")
    case 18 => ("accept-ranges", "")
    case 19 => ("accept", "")
    case 20 => ("access-control-allow-origin", "")
    case 21 => ("age", "")
    case 22 => ("allow", "")
    case 23 => ("authorization", "")
    case 24 => ("cache-control", "")
    case 25 => ("content-disposition", "")
    case 26 => ("content-encoding", "")
    case 27 => ("content-language", "")
    case 28 => ("content-length", "")
    case 29 => ("content-location", "")
    case 30 => ("content-range", "")
    case 31 => ("content-type", "")
    case 32 => ("cookie", "")
    case 33 => ("date", "")
    case 34 => ("etag", "")
    case 35 => ("expect", "")
    case 36 => ("expires", "")
    case 37 => ("from", "")
    case 38 => ("host", "")
    case 39 => ("if-match", "")
    case 40 => ("if-modified-since", "")
    case 41 => ("if-none-match", "")
    case 42 => ("if-range", "")
    case 43 => ("if-unmodified-since", "")
    case 44 => ("last-modified", "")
    case 45 => ("link", "")
    case 46 => ("location", "")
    case 47 => ("max-forwards", "")
    case 48 => ("proxy-authenticate", "")
    case 49 => ("proxy-authorization", "")
    case 50 => ("range", "")
    case 51 => ("referer", "")
    case 52 => ("refresh", "")
    case 53 => ("retry-after", "")
    case 54 => ("server", "")
    case 55 => ("set-cookie", "")
    case 56 => ("strict-transport-security", "")
    case 57 => ("transfer-encoding", "")
    case 58 => ("user-agent", "")
    case 59 => ("vary", "")
    case 60 => ("via", "")
    case _ => ("www-authenticate", "")
  }

  /** The appendix as bytes, row 1 first. */
  function AppendixA(): (t: seq<(Str, Str)>)
    ensures |t| == STATIC_LEN
  {
    seq(STATIC_LEN, i requires 0 <= i < STATIC_LEN => (Octets(AppendixRow(i + 1).0), Octets(AppendixRow(i + 1).1)))
  }

  /** "PRI * HTTP/2.0", "SM" and their line ends. */
  const PREFACE_OCTETS: seq<byte> := [
    0x50, 0x52, 0x49, 0x20, 0x2A, 0x20, 0x48, 0x54, 0x54, 0x50, 0x2F, 0x32, 0x2E, 0x30, 0x0D, 0x0A, 0x0D, 0x0A,
    0x53, 0x4D, 0x0D, 0x0A, 0x0D, 0x0A
  ]

  lemma OctetsAreAscii(s: string)
    ensures Octets(s) == Ascii(s)
  {
  }

  lemma AsciiIs(s: string, b: Str)
    requires |s| == |b| && forall i :: 0 <= i < |s| ==> s[i] as int == b[i]
    ensures Ascii(s) == b
  {
  }

  /** The preface the decoder looks for, as bytes. */
  lemma PrefaceOctets()
    ensures Ascii("PRI * HTTP/2.0\r\n\r\nSM\r\n\r\n") == PREFACE_OCTETS
  {
    AsciiIs("PRI * HTTP/2.0\r\n\r\nSM\r\n\r\n", PREFACE_OCTETS);
  }

  lemma SameRow(idx: nat)
    requires 1 <= idx <= STATIC_LEN
    ensures StaticRow(idx) == AppendixRow(idx)
  {
    hide Ascii, Octets;
  }

  /** The decoder's static table is that of the appendix. */
  lemma StaticIsAppendix()
    ensures StaticHeaders() == AppendixA()
  {
    hide StaticRow, AppendixRow, Ascii, Octets;
    forall i | 0 <= i < STATIC_LEN
      ensures StaticHeaders()[i] == AppendixA()[i]
    {
      SameRow(i + 1);
      OctetsAreAscii(StaticRow(i + 1).0);
      OctetsAreAscii(StaticRow(i + 1).1);
    }
  }
}
