/**
 * runner/proxyserver.py: the HTTP proxy between the engine and the SPARQL endpoint. It logs
 * every URL it is asked for, forwards the request, and relays the answer with the upstream
 * base rewritten to its own.
 *
 * The HTTP server, its threads and `urlopen` are replaced by their observable behaviour: the
 * request line and headers come in as values and the upstream answer, or the exception
 * `urlopen` raised, is a parameter of the handler, as are the text codec's `decode` and
 * `encode`.
 */
module RunnerProxy {
  import opened Wrappers
  import opened Strings
  import opened Dicts
  import opened Seqs

  /** A header list as `headers.items()` yields it: names may repeat. */
  type Headers = seq<(string, string)>

  /** `IGNORE_HEADERS`: hop-by-hop and length headers the proxy does not pass on. */
  const IgnoreHeaders: set<string> := {"content-encoding", "content-length", "transfer-encoding", "connection"}

  // ---------------------------------------------------------------- request headers

  /** `{k: v for k, v in headers.items() if k.lower() != "host"}`. */
  function ForwardHeaders(h: Headers): Dict<string, string> {
    if |h| == 0 then []
    else
      var (k, v) := h[|h| - 1];
      if Lower(k) != "host" then Put(ForwardHeaders(h[..|h| - 1]), k, v) else ForwardHeaders(h[..|h| - 1])
  }

  /** The forwarded headers are the incoming ones without `Host` in any letter case; a name sent
      twice keeps its last value. */
  lemma {:induction false} ForwardHeadersGet(h: Headers, k: string)
    ensures Dicts.Valid(ForwardHeaders(h))
    ensures Get(ForwardHeaders(h), k) == if Lower(k) == "host" then None else LastValue(h, k)
  {
    if |h| > 0 {
      var init := h[..|h| - 1];
      var (k', v) := h[|h| - 1];
      ForwardHeadersGet(init, k);
      if Lower(k') != "host" {
        GetPut(ForwardHeaders(init), k', v, k);
      }
    }
  }

  // ---------------------------------------------------------------- the relayed response

  /** The response headers `proxy_request` sends on, in order: those not in `IGNORE_HEADERS`. */
  function KeptHeaders(h: Headers): Headers {
    if |h| == 0 then []
    else KeptHeaders(h[..|h| - 1]) + (if Lower(h[|h| - 1].0) in IgnoreHeaders then [] else [h[|h| - 1]])
  }

  /** A header is kept exactly when it was received and its lower-cased name is not ignored. */
  lemma {:induction false} KeptHeadersMembers(h: Headers)
    ensures |KeptHeaders(h)| <= |h|
    ensures forall x :: x in KeptHeaders(h) <==> x in h && Lower(x.0) !in IgnoreHeaders
  {
    if |h| > 0 {
      var init := h[..|h| - 1];
      KeptHeadersMembers(init);
      assert h == init + [h[|h| - 1]];
    }
  }

  /** `v.replace(proxy_base, listen_base) if proxy_base in v else v`. */
  function Rewrite(v: string, proxyBase: string, listenBase: string): string
    requires |proxyBase| > 0
  {
    if Contains(v, proxyBase) then ReplaceAll(v, proxyBase, listenBase) else v
  }

  /** The guard changes nothing: the value is the text between occurrences of the upstream
      base, joined with the listen base. */
  lemma RewriteReplacesEveryOccurrence(v: string, proxyBase: string, listenBase: string)
    requires |proxyBase| > 0
    ensures Rewrite(v, proxyBase, listenBase) == ReplaceAll(v, proxyBase, listenBase)
    ensures Rewrite(v, proxyBase, listenBase) == Join(Split(v, proxyBase), listenBase)
  {
    if !Contains(v, proxyBase) {
      ReplaceAllAbsent(v, proxyBase, listenBase);
    }
    ReplaceAllIsJoinSplit(v, proxyBase, listenBase);
  }

  /** The headers sent to the client: the kept ones, values rewritten. */
  function RelayHeaders(h: Headers, proxyBase: string, listenBase: string): (r: Headers)
    requires |proxyBase| > 0
  {
    Map((x: (string, string)) => (x.0, Rewrite(x.1, proxyBase, listenBase)), KeptHeaders(h))
  }

  /** Each relayed header is a kept header with its value rewritten, in the order received. */
  lemma RelayHeadersSpec(h: Headers, proxyBase: string, listenBase: string)
    requires |proxyBase| > 0
    ensures var r := RelayHeaders(h, proxyBase, listenBase);
      |r| == |KeptHeaders(h)|
      && forall i :: 0 <= i < |r| ==>
           r[i] == (KeptHeaders(h)[i].0, Rewrite(KeptHeaders(h)[i].1, proxyBase, listenBase))
           && Lower(r[i].0) !in IgnoreHeaders
  {
    var kept := KeptHeaders(h);
    MapIndex((x: (string, string)) => (x.0, Rewrite(x.1, proxyBase, listenBase)), kept);
    KeptHeadersMembers(h);
    assert forall i :: 0 <= i < |kept| ==> kept[i] in kept;
  }

  /** The relayed body: the upstream body with every upstream base replaced. */
  function RelayBody(body: string, proxyBase: string, listenBase: string): string
    requires |proxyBase| > 0
  {
    ReplaceAll(body, proxyBase, listenBase)
  }

  /** A body without the upstream base is relayed unchanged, and one that has it is relayed
      with the listen base wherever the upstream base stood. */
  lemma RelayBodySpec(body: string, proxyBase: string, listenBase: string)
    requires |proxyBase| > 0
    ensures !Contains(body, proxyBase) ==> RelayBody(body, proxyBase, listenBase) == body
    ensures RelayBody(body, proxyBase, listenBase) == Join(Split(body, proxyBase), listenBase)
  {
    if !Contains(body, proxyBase) {
      ReplaceAllAbsent(body, proxyBase, listenBase);
    }
    ReplaceAllIsJoinSplit(body, proxyBase, listenBase);
  }

  // ---------------------------------------------------------------- errors

  /** What `urlopen` or relaying may raise. */
  datatype Failure = HttpError(code: int) | ConnectionReset | UrlError | OtherException

  const BadGateway := 502
  const InternalServerError := 500

  /** The status of the error page sent for a failure, by the first matching `except`. */
  function ErrorStatus(f: Failure): int {
    match f
    case HttpError(code) => code
    case ConnectionReset => BadGateway
    case UrlError => InternalServerError
    case OtherException => InternalServerError
  }

  /** Only an upstream HTTP error passes its own status on; a reset connection is a bad gateway
      and every other failure an internal error. */
  lemma ErrorStatusCases(f: Failure)
    ensures f.HttpError? ==> ErrorStatus(f) == f.code
    ensures f.ConnectionReset? <==> !f.HttpError? && ErrorStatus(f) == 502
    ensures !f.HttpError? ==> ErrorStatus(f) in {500, 502}
  {
  }

  // ---------------------------------------------------------------- the server

  /** `do_GET`, `do_HEAD` and `do_OPTIONS` exist; other methods are refused by the server. */
  predicate Proxied(command: string) {
    command == "GET" || command == "HEAD" || command == "OPTIONS"
  }

  /** A response body as read from the upstream. */
  type Bytes = seq<bv8>

  /** `bytes.decode()` (None where it raises `UnicodeDecodeError`) and `str.encode()`. */
  type Decoder = Bytes -> Option<string>
  type Encoder = string -> Bytes

  /** The upstream answer, or the exception raised on the way. */
  datatype Upstream = Responded(status: int, headers: Headers, body: Bytes) | Failed(failure: Failure)

  /** What the client receives. `HeadersThenError`: the status line and headers were sent,
      then decoding the body raised, and the error page for 500 follows them on the same
      connection. */
  datatype Reply =
    | Relayed(status: int, headers: Headers, body: Bytes)
    | HeadersThenError(status: int, headers: Headers, code: int)
    | ErrorPage(code: int)
    | Unsupported

  /** The reply `proxy_request` sends for an upstream outcome: the body is decoded after the
      headers have gone out, so one that does not decode leaves the client with the
      upstream's headers followed by an error page. */
  function ReplyFor(upstream: Upstream, proxyBase: string, listenBase: string, decode: Decoder, encode: Encoder): (r: Reply)
    requires |proxyBase| > 0
    ensures upstream.Failed? <==> r.ErrorPage?
    ensures upstream.Responded? ==>
      (r.Relayed? <==> decode(upstream.body).Some?)
      && (r.Relayed? || r.HeadersThenError?)
      && r.status == upstream.status && r.headers == RelayHeaders(upstream.headers, proxyBase, listenBase)
    ensures r.HeadersThenError? ==> r.code == 500
  {
    match upstream
    case Responded(status, headers, body) =>
      (match decode(body)
       case Some(text) => Relayed(status, RelayHeaders(headers, proxyBase, listenBase), encode(RelayBody(text, proxyBase, listenBase)))
       case None => HeadersThenError(status, RelayHeaders(headers, proxyBase, listenBase), 500))
    case Failed(f) => ErrorPage(ErrorStatus(f))
  }

  /** A body that decodes, encodes back to itself and holds no upstream base reaches the
      client byte for byte. */
  lemma BodyUnchanged(status: int, headers: Headers, body: Bytes, proxyBase: string, listenBase: string,
                      decode: Decoder, encode: Encoder)
    requires |proxyBase| > 0
    requires decode(body).Some? && encode(decode(body).value) == body && !Contains(decode(body).value, proxyBase)
    ensures ReplyFor(Responded(status, headers, body), proxyBase, listenBase, decode, encode).body == body
  {
    RelayBodySpec(decode(body).value, proxyBase, listenBase);
  }

  /** `http://host:port`. */
  function Base(host: string, port: int): (r: string)
    ensures |r| > 0
  {
    "http://" + host + ":" + IntToDecimal(port)
  }

  class ProxyServer {
    /** `urls`: every URL requested since the last `reset`, in order. */
    var urls: seq<string>
    const listenBase: string
    const proxyBase: string

    constructor(host: string, port: int, upstreamHost: string, upstreamPort: int)
      ensures urls == []
      ensures listenBase == Base(host, port) && proxyBase == Base(upstreamHost, upstreamPort)
    {
      urls := [];
      listenBase := Base(host, port);
      proxyBase := Base(upstreamHost, upstreamPort);
    }

    /** One request: logged before it is forwarded, so a failed forward is still logged. */
    method HandleRequest(command: string, path: string, incoming: Headers, upstream: Upstream, decode: Decoder, encode: Encoder)
      returns (forwarded: Option<Dict<string, string>>, reply: Reply)
      requires |proxyBase| > 0
      modifies this
      ensures Proxied(command) ==> urls == old(urls) + [proxyBase + path]
      ensures !Proxied(command) ==> urls == old(urls) && forwarded == None && reply == Unsupported
      ensures Proxied(command) ==> forwarded == Some(ForwardHeaders(incoming))
      ensures Proxied(command) ==> reply == ReplyFor(upstream, proxyBase, listenBase, decode, encode)
    {
      if !Proxied(command) {
        return None, Unsupported;
      }
      var targetUrl := proxyBase + path;
      urls := urls + [targetUrl];
      forwarded := Some(ForwardHeaders(incoming));
      match upstream {
        case Responded(status, headers, body) =>
          var sent := RelayHeaders(headers, proxyBase, listenBase);
          match decode(body) {
            case Some(text) => reply := Relayed(status, sent, encode(RelayBody(text, proxyBase, listenBase)));
            case None => reply := HeadersThenError(status, sent, 500);
          }
        case Failed(f) =>
          reply := ErrorPage(ErrorStatus(f));
      }
    }

    /** `reset`: hands over the log in order and empties it. */
    method Reset() returns (logged: seq<string>)
      modifies this
      ensures logged == old(urls) && urls == []
    {
      logged := urls;
      urls := [];
    }
  }

  /** Two resets in a row: the second hands over nothing. */
  method ResetTwice(p: ProxyServer) returns (first: seq<string>, second: seq<string>)
    modifies p
    ensures first == old(p.urls) && second == [] && p.urls == []
  {
    first := p.Reset();
    second := p.Reset();
  }
}
