/**
 * chronomunica/proxyserver.py: the Flask version of the proxy. It logs the upstream URL of
 * every routed request, forwards it without the `Host` header, and relays the status and the
 * non-hop-by-hop headers unchanged; the body is relayed as `iter_content(decode_unicode=True)`
 * yields it: its Content-Encoding undone and, where `requests` finds a text encoding, decoded
 * to text that Flask sends on as UTF-8. An exception is re-raised to Flask.
 *
 * Flask, `requests` and the thread are replaced by their observable behaviour: the request
 * comes in as values and the upstream answer, or the exception raised, is a parameter, as are
 * the decompression and the choice of text decoder, which live in `requests` and urllib3.
 */
module ChronoProxy {
  import opened Wrappers
  import opened Strings
  import opened Dicts
  import opened RunnerProxy

  /** `f"{protocol}://{upstream_host}:{upstream_port}"`. */
  function TargetBase(protocol: string, host: string, port: int): string {
    protocol + "://" + host + ":" + IntToDecimal(port)
  }

  /** The path of a request target: what comes before its query string. */
  function RequestPath(target: string): (p: string)
    ensures '?' !in p
  {
    SplitPiecesFree(target, '?');
    FirstPiece(target, "?")
  }

  /** The `path` argument the two routes give `proxy`, or None when no route takes the
      request: Flask matches the path of the request target, without its query string;
      `/` gives the empty path and `/<path:path>` the rest after the leading slash, for
      GET, HEAD and OPTIONS only. */
  function Route(command: string, target: string): (r: Option<string>)
    ensures r.Some? <==> Proxied(command) && StartsWith(RequestPath(target), "/")
    ensures r.Some? ==> RequestPath(target) == "/" + r.value && '?' !in r.value
  {
    var path := RequestPath(target);
    if Proxied(command) && StartsWith(path, "/") then Some(path[1..]) else None
  }

  /** The logged URL is the target base and the request path, without the query string:
      `f"{target_base}/{path}"`. */
  lemma RoutedUrl(protocol: string, host: string, port: int, command: string, target: string)
    requires Route(command, target).Some?
    ensures TargetBase(protocol, host, port) + "/" + Route(command, target).value
         == TargetBase(protocol, host, port) + RequestPath(target)
  {
  }

  /** A query string never reaches the upstream: `GET /ldf?subject=x` is logged and
      forwarded as `<base>/ldf`. */
  lemma QueryStringDropped(command: string, path: string, query: string)
    requires Proxied(command) && StartsWith(path, "/") && '?' !in path
    ensures Route(command, path + "?" + query) == Some(path[1..])
  {
    PathBeforeQuery(path, query);
  }

  /** The first '?' ends the path. */
  lemma {:induction false} PathBeforeQuery(path: string, query: string)
    requires '?' !in path
    ensures Split(path + "?" + query, "?")[0] == path
    decreases |path|
  {
    var s := path + "?" + query;
    if path == [] {
      assert s[..1] == "?";
    } else {
      assert s[0] == path[0] && s[1..] == path[1..] + "?" + query;
      PathBeforeQuery(path[1..], query);
      assert [path[0]] + path[1..] == path;
    }
  }

  /** urllib3's content decoding: the upstream body with the gzip or deflate Content-Encoding
      named in the headers undone, and unchanged when there is none. */
  type Inflater = (Headers, Bytes) -> Bytes

  /** The decoder of `res.encoding`, with undecodable input replaced rather than raising, or
      None where `requests` finds no encoding for the headers and the chunks stay bytes. For a
      `text/...` type without a charset the encoding is ISO-8859-1, that is `Latin1Decode`. */
  type TextDecoder = Headers -> Option<Bytes -> string>

  /** ISO-8859-1: every byte is the character with the same code. */
  function Latin1Decode(b: Bytes): (s: string)
    ensures |s| == |b|
  {
    if b == [] then [] else [(b[0] as int) as char] + Latin1Decode(b[1..])
  }

  /** The UTF-8 encoding of one character. */
  function Utf8Char(c: char): (b: Bytes)
    ensures 1 <= |b| <= 4
    ensures |b| == 1 <==> (c as int) < 0x80
  {
    var n := c as int;
    if n < 0x80 then [n as bv8]
    else if n < 0x800 then [(0xC0 + n / 0x40) as bv8, (0x80 + n % 0x40) as bv8]
    else if n < 0x10000 then [(0xE0 + n / 0x1000) as bv8, (0x80 + n / 0x40 % 0x40) as bv8, (0x80 + n % 0x40) as bv8]
    else [(0xF0 + n / 0x40000 % 0x08) as bv8, (0x80 + n / 0x1000 % 0x40) as bv8, (0x80 + n / 0x40 % 0x40) as bv8,
          (0x80 + n % 0x40) as bv8]
  }

  /** How Flask sends a text chunk: UTF-8. */
  function Utf8Encode(s: string): (b: Bytes)
    ensures |b| >= |s|
  {
    if s == [] then [] else Utf8Char(s[0]) + Utf8Encode(s[1..])
  }

  /** The number of bytes outside ASCII. */
  function HighBytes(b: Bytes): nat {
    if b == [] then 0 else (if b[0] < 0x80 then 0 else 1) + HighBytes(b[1..])
  }

  /** The bytes the client receives for an upstream body: inflated, then, when there is a text
      decoder, decoded and encoded again as UTF-8. */
  function RelayedBody(headers: Headers, body: Bytes, inflate: Inflater, charset: TextDecoder): (b: Bytes)
    ensures charset(headers).None? ==> b == inflate(headers, body)
    ensures charset(headers).Some? ==> |b| >= |charset(headers).value(inflate(headers, body))|
  {
    match charset(headers)
    case None => inflate(headers, body)
    case Some(decode) => Utf8Encode(decode(inflate(headers, body)))
  }

  /** Latin-1 decoding then UTF-8 encoding adds one byte for every byte outside ASCII. */
  lemma {:induction false} Latin1Utf8Length(b: Bytes)
    ensures |Utf8Encode(Latin1Decode(b))| == |b| + HighBytes(b)
  {
    if b != [] {
      var t := Latin1Decode(b[1..]);
      assert Latin1Decode(b) == [(b[0] as int) as char] + t;
      assert ([(b[0] as int) as char] + t)[1..] == t;
      Latin1Utf8Length(b[1..]);
    }
  }

  /** An ASCII body comes back unchanged from Latin-1 decoding and UTF-8 encoding. */
  lemma {:induction false} Latin1Utf8Ascii(b: Bytes)
    requires forall i :: 0 <= i < |b| ==> b[i] < 0x80
    ensures Utf8Encode(Latin1Decode(b)) == b
  {
    if b != [] {
      var t := Latin1Decode(b[1..]);
      assert Latin1Decode(b) == [(b[0] as int) as char] + t;
      assert ([(b[0] as int) as char] + t)[1..] == t;
      Latin1Utf8Ascii(b[1..]);
      assert b == [b[0]] + b[1..];
    }
  }

  /** A byte outside ASCII is counted. */
  lemma {:induction false} HighBytesPositive(b: Bytes, i: nat)
    requires i < |b| && b[i] >= 0x80
    ensures HighBytes(b) > 0
  {
    if i > 0 {
      HighBytesPositive(b[1..], i - 1);
    }
  }

  /** A `text/...` body without a charset and without a Content-Encoding reaches the client byte
      for byte exactly when it is all ASCII: every other byte is transcoded to two. */
  lemma TextBodyUnchangedIffAscii(headers: Headers, body: Bytes, inflate: Inflater, charset: TextDecoder)
    requires inflate(headers, body) == body && charset(headers) == Some(Latin1Decode)
    ensures RelayedBody(headers, body, inflate, charset) == body <==> forall i :: 0 <= i < |body| ==> body[i] < 0x80
  {
    Latin1Utf8Length(body);
    if (forall i :: 0 <= i < |body| ==> body[i] < 0x80) {
      Latin1Utf8Ascii(body);
    } else {
      var i :| 0 <= i < |body| && body[i] >= 0x80;
      HighBytesPositive(body, i);
    }
  }

  /** The two characters `é` decodes to under ISO-8859-1, and their UTF-8 bytes. */
  lemma LatinSmallEAcute()
    ensures Latin1Decode([0xC3, 0xA9]) == [0xC3 as char, 0xA9 as char]
  {
    var tail: Bytes := [0xA9];
    assert Latin1Decode(tail) == [0xA9 as char] by {
      assert tail[1..] == [];
    }
    assert [0xC3, 0xA9][1..] == tail;
  }

  lemma Utf8OfC3()
    ensures Utf8Char(0xC3 as char) == [0xC3, 0x83]
  {
  }

  lemma Utf8OfA9()
    ensures Utf8Char(0xA9 as char) == [0xC2, 0xA9]
  {
  }

  /** `é` sent upstream as UTF-8 under `text/turtle` reaches the client as `Ã©`, in UTF-8. */
  lemma TextBodyTranscoded()
    ensures Utf8Encode(Latin1Decode([0xC3, 0xA9])) == [0xC3, 0x83, 0xC2, 0xA9]
  {
    LatinSmallEAcute();
    Utf8OfC3();
    Utf8OfA9();
    var text := [0xC3 as char, 0xA9 as char];
    assert text[1..] == [0xA9 as char];
    assert Utf8Encode(text[1..]) == [0xC2, 0xA9] by {
      assert text[1..][1..] == [];
    }
  }

  /** A body with no Content-Encoding for which `requests` finds no text encoding is relayed
      byte for byte. */
  lemma BytesBodyUnchanged(headers: Headers, body: Bytes, inflate: Inflater, charset: TextDecoder)
    requires inflate(headers, body) == body && charset(headers).None?
    ensures RelayedBody(headers, body, inflate, charset) == body
  {
  }

  /** What Flask sends back. */
  datatype FlaskReply = PassedOn(status: int, headers: Headers, body: Bytes) | Raised(failure: Failure) | NotRouted

  class ProxyServer {
    var urls: seq<string>
    const targetBase: string

    constructor(protocol: string, upstreamHost: string, upstreamPort: int)
      ensures urls == [] && targetBase == TargetBase(protocol, upstreamHost, upstreamPort)
    {
      urls := [];
      targetBase := TargetBase(protocol, upstreamHost, upstreamPort);
    }

    /** `proxy`: log the URL, forward, relay; the status passes through unchanged, the body as
        `RelayedBody` gives it, and an exception is re-raised rather than mapped to a status. */
    method Proxy(command: string, target: string, incoming: Headers, upstream: Upstream,
                 inflate: Inflater, charset: TextDecoder)
      returns (forwarded: Option<Dict<string, string>>, reply: FlaskReply)
      modifies this
      ensures Route(command, target).None? ==> urls == old(urls) && forwarded == None && reply == NotRouted
      ensures Route(command, target).Some? ==>
        urls == old(urls) + [targetBase + "/" + Route(command, target).value]
        && forwarded == Some(ForwardHeaders(incoming))
      ensures Route(command, target).Some? && upstream.Responded? ==>
        reply == PassedOn(upstream.status, KeptHeaders(upstream.headers),
                          RelayedBody(upstream.headers, upstream.body, inflate, charset))
      ensures Route(command, target).Some? && upstream.Failed? ==> reply == Raised(upstream.failure)
    {
      var route := Route(command, target);
      if route.None? {
        return None, NotRouted;
      }
      var path := route.value;
      var url := targetBase + "/" + path;
      urls := urls + [url];
      forwarded := Some(ForwardHeaders(incoming));
      match upstream {
        case Responded(status, headers, body) =>
          reply := PassedOn(status, KeptHeaders(headers), RelayedBody(headers, body, inflate, charset));
        case Failed(f) =>
          reply := Raised(f);
      }
    }

    /** `reset`: hands over the log in order and empties it. */
    method Reset() returns (logged: seq<string>)
      modifies this
      ensures logged == old(urls) && urls == []
    {
      logged := urls;
      urls := [];
    }
  }
}
