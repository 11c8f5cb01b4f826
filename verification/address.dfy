/**
 * Public address lookup: `getServerIP()` in panel.freecloud.ltd/hysteria.js.
 * The one request to the address echo service ends in a body delivered in
 * chunks, a request error or a timeout; the lookup never fails, falling back
 * to a placeholder.  The request's `error` and `timeout` listeners stay
 * attached while the body arrives, so a reset or an idle spell mid-body also
 * gives the placeholder.  When the server closes the connection cleanly
 * before the body's end, no event the script listens to fires, and the
 * lookup then never settles.
 */
module PublicAddress {
  import opened Wrappers
  import opened Text

  const LOOKUP_URL: string := "https://api.ipify.org"
  const PLACEHOLDER: string := "YOUR_SERVER_IP"

  /** How the lookup request ended. */
  datatype Lookup =
    | Body(chunks: seq<string>)
    | Cut(chunks: seq<string>)   // the chunks that arrived before a clean close; no `end`
    | LookupError(message: string)
    | LookupTimeout

  /** The body as the `data` handler accumulates it, chunk after chunk. */
  function Received(chunks: seq<string>): string
  {
    if chunks == [] then "" else Received(chunks[..|chunks| - 1]) + chunks[|chunks| - 1]
  }

  /** How the chunks are cut does not matter: the body is their concatenation. */
  lemma {:induction false} ReceivedAppend(a: seq<string>, b: seq<string>)
    ensures Received(a + b) == Received(a) + Received(b)
    decreases |b|
  {
    if b == [] {
      assert a + b == a;
    } else {
      var n := |b| - 1;
      assert (a + b)[..|a + b| - 1] == a + b[..n];
      ReceivedAppend(a, b[..n]);
    }
  }

  /** The address the lookup settles with, or None when it never settles. */
  function ServerAddress(lookup: Lookup): Option<string>
  {
    match lookup
    case Body(chunks) => Some(Trim(Received(chunks)))
    case Cut(_) => None
    case LookupError(_) => Some(PLACEHOLDER)
    case LookupTimeout => Some(PLACEHOLDER)
  }

  /**
   * `getServerIP()`: the chunks are appended to `data` as they arrive and the
   * trimmed text is the address; an error or a timeout gives the placeholder;
   * a body cut off before its end leaves the promise unsettled (None).
   */
  method GetServerIP(lookup: Lookup) returns (ip: Option<string>)
    ensures lookup.Body? ==> ip == Some(Trim(Received(lookup.chunks)))
    ensures lookup.Cut? ==> ip.None?
    ensures lookup.LookupError? || lookup.LookupTimeout? ==> ip == Some(PLACEHOLDER)
  {
    match lookup {
      case Body(chunks) =>
        var data := "";
        var i := 0;
        while i < |chunks|
          invariant 0 <= i <= |chunks|
          invariant data == Received(chunks[..i])
        {
          assert chunks[..i + 1][..i] == chunks[..i];
          data := data + chunks[i];
          i := i + 1;
        }
        assert chunks[..i] == chunks;
        ip := Some(Trim(data));
      case Cut(_) =>
        ip := None;
      case LookupError(_) =>
        ip := Some(PLACEHOLDER);
      case LookupTimeout =>
        ip := Some(PLACEHOLDER);
    }
  }

  /**
   * A received body settles with itself less the white space around it;
   * what remains starts and ends with a non-space, and trimming it again
   * changes nothing.
   */
  lemma BodyAddress(chunks: seq<string>)
    ensures ServerAddress(Body(chunks)) == Some(Trim(Received(chunks)))
    ensures var data := Received(chunks); var ip := Trim(data);
      && Padded(data, ip, |data| - |TrimStart(data)|)
      && (ip == [] || (!IsJsSpace(ip[0]) && !IsJsSpace(ip[|ip| - 1])))
      && Trim(ip) == ip
  {
    TrimIdempotent(Received(chunks));
  }

  /** An empty or blank body gives the empty address, not the placeholder. */
  lemma BlankBodyGivesEmptyAddress(chunks: seq<string>)
    requires AllSpace(Received(chunks))
    ensures ServerAddress(Body(chunks)) == Some([])
  {
    BlankTrimsToEmpty(Received(chunks));
  }
}
