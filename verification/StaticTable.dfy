/** The static table of Appendix A of RFC 7541. Indices start at 1; entry 0 is a placeholder. */
module StaticTable {
  import opened Bytes
  import opened Tables

  const STATIC_LEN := 61

  /** The bytes of an ASCII string. */
  function Ascii(s: string): seq<byte> {
    seq(|s|, i requires 0 <= i < |s| => (s[i] as int) % 0x100)
  }

  function Named(name: string, value: string): (f: HeaderField)
    ensures |f.name| == |name|
  {
    HeaderField(Ascii(name), Ascii(value))
  }

  function Entry(i: nat): HeaderField {
    match i
    case 1 => Named(":authority", "")
    case 2 => Named(":method", "GET")
    case 3 => Named(":method", "POST")
    case 4 => Named(":path", "/")
    case 5 => Named(":path", "/index.html")
    case 6 => Named(":scheme", "http")
    case 7 => Named(":scheme", "https")
    case 8 => Named(":status", "200")
    case 9 => Named(":status", "204")
    case 10 => Named(":status", "206")
    case 11 => Named(":status", "304")
    case 12 => Named(":status", "400")
    case 13 => Named(":status", "404")
    case 14 => Named(":status", "500")
    case 15 => Named("accept-charset", "")
    case 16 => Named("accept-encoding", "gzip, deflate")
    case 17 => Named("accept-language", "")
    case 18 => Named("accept-ranges", "")
    case 19 => Named("accept", "")
    case 20 => Named("access-control-allow-origin", "")
    case 21 => Named("age", "")
    case 22 => Named("allow", "")
    case 23 => Named("authorization", "")
    case 24 => Named("cache-control", "")
    case 25 => Named("content-disposition", "")
    case 26 => Named("content-encoding", "")
    case 27 => Named("content-language", "")
    case 28 => Named("content-length", "")
    case 29 => Named("content-location", "")
    case 30 => Named("content-range", "")
    case 31 => Named("content-type", "")
    case 32 => Named("cookie", "")
    case 33 => Named("date", "")
    case 34 => Named("etag", "")
    case 35 => Named("expect", "")
    case 36 => Named("expires", "")
    case 37 => Named("from", "")
    case 38 => Named("host", "")
    case 39 => Named("if-match", "")
    case 40 => Named("if-modified-since", "")
    case 41 => Named("if-none-match", "")
    case 42 => Named("if-range", "")
    case 43 => Named("if-unmodified-since", "")
    case 44 => Named("last-modified", "")
    case 45 => Named("link", "")
    case 46 => Named("location", "")
    case 47 => Named("max-forwards", "")
    case 48 => Named("proxy-authenticate", "")
    case 49 => Named("proxy-authorization", "")
    case 50 => Named("range", "")
    case 51 => Named("referer", "")
    case 52 => Named("refresh", "")
    case 53 => Named("retry-after", "")
    case 54 => Named("server", "")
    case 55 => Named("set-cookie", "")
    case 56 => Named("strict-transport-security", "")
    case 57 => Named("transfer-encoding", "")
    case 58 => Named("user-agent", "")
    case 59 => Named("vary", "")
    case 60 => Named("via", "")
    case 61 => Named("www-authenticate", "")
    case _ => Named("", "")
  }

  const ENTRIES: seq<HeaderField> := seq(STATIC_LEN + 1, (i: nat) => Entry(i))

  function Get(entries: seq<HeaderField>, index: nat): Option<HeaderField>
    requires |entries| == STATIC_LEN + 1
  {
    if index == 0 || index > STATIC_LEN then None else Some(entries[index])
  }
}
