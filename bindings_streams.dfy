/**
 * What a Comunica engine does for one `queryBindings` call, as the TypeScript runners
 * observe it, and the query contexts they hand it.
 *
 * The engine is a parameter: a function from the query text and the context to what the
 * returned promise settles to. A resolved stream is the requests the engine sends through
 * the context's `fetch`, the data events (each binding with the `Date.now()` reading its
 * handler takes) and how the stream finishes. A rejection, too, comes after whatever
 * requests the engine sent before it gave up (fetching a source that then fails to parse,
 * say), and those went through the context's `fetch` all the same.
 */
module BindingsStreams {
  import opened Wrappers
  import opened Seqs
  import opened Dicts
  import opened Rdf
  import opened Fetching

  /** One entry of a query context. */
  datatype Value = Json(text: string) | Flag(on: bool) | Sources(urls: seq<string>) | CountingFetch

  type Context = Dict<string, Value>

  /** How a binding stream finishes: 'end', with the `Date.now()` reading its handler takes,
      or 'error'. */
  datatype Ending = End(now: int) | Failure(error: string)

  datatype Stream = Stream(requests: seq<Input>, data: seq<(Binding, int)>, ending: Ending)

  /** What the promise `queryBindings` returns settles to, with the requests sent before a
      rejection. */
  datatype Answer = Rejected(requests: seq<Input>, error: string) | Resolved(stream: Stream)

  type Engine = (string, Context) -> Answer

  /** The data events of an answer (none when it rejects). */
  function Data(a: Answer): seq<(Binding, int)> {
    if a.Resolved? then a.stream.data else []
  }

  /** The requests the engine sends while answering, whether it resolves or rejects. */
  function Requests(a: Answer): seq<Input> {
    match a
    case Rejected(requests, _) => requests
    case Resolved(stream) => stream.requests
  }

  /** The error an answer ends in, if any: the rejection or the stream's 'error'. */
  function ErrorOf(a: Answer): (r: Option<string>)
    ensures r.None? <==> a.Resolved? && a.stream.ending.End?
  {
    match a
    case Rejected(_, e) => Some(e)
    case Resolved(s) => if s.ending.Failure? then Some(s.ending.error) else None
  }

  /** The bindings of the data events, in order. */
  function Bindings(data: seq<(Binding, int)>): (r: seq<Binding>)
    ensures |r| == |data|
  {
    if |data| == 0 then [] else Bindings(data[..|data| - 1]) + [data[|data| - 1].0]
  }

  /** The clock readings of the data events, in order. */
  function Times(data: seq<(Binding, int)>): (r: seq<int>)
    ensures |r| == |data|
  {
    if |data| == 0 then [] else Times(data[..|data| - 1]) + [data[|data| - 1].1]
  }

  lemma BindingsSnoc(data: seq<(Binding, int)>, i: nat)
    requires i < |data|
    ensures Bindings(data[..i + 1]) == Bindings(data[..i]) + [data[i].0]
  {
    assert data[..i + 1][..i] == data[..i];
  }

  lemma TimesSnoc(data: seq<(Binding, int)>, i: nat)
    requires i < |data|
    ensures Times(data[..i + 1]) == Times(data[..i]) + [data[i].1]
  {
    assert data[..i + 1][..i] == data[..i];
  }

  /** The i-th clock reading is that of the i-th event. */
  lemma {:induction false} TimesAt(data: seq<(Binding, int)>, i: nat)
    requires i < |data|
    ensures Times(data)[i] == data[i].1
  {
    if i < |data| - 1 {
      TimesAt(data[..|data| - 1], i);
    }
  }

  /** One data event more appends the time since the previous event (or since the start). */
  lemma IntervalsSnoc(start: int, data: seq<(Binding, int)>, i: nat)
    requires i < |data|
    ensures Intervals(start, Times(data[..i + 1])) ==
      Intervals(start, Times(data[..i])) + [data[i].1 - (if i == 0 then start else data[i - 1].1)]
  {
    TimesSnoc(data, i);
    var t := Times(data[..i + 1]);
    assert t[..|t| - 1] == Times(data[..i]);
    if i > 0 {
      TimesAt(data[..i], i - 1);
    }
  }

  /** The measurements of the data events: one interval per result, and together they span
      the time from the start reading to the last result. */
  lemma IntervalsOfData(start: int, data: seq<(Binding, int)>)
    ensures |Intervals(start, Times(data))| == |data|
    ensures Sum(Intervals(start, Times(data))) == if |data| == 0 then 0 else data[|data| - 1].1 - start
  {
    IntervalsSum(start, Times(data));
    if |data| > 0 {
      TimesAt(data, |data| - 1);
    }
  }

  /** The engine's requests through the context's `fetch`, when that is a counter's. */
  method SendRequests(counter: FetchCounter, requests: seq<Input>)
    modifies counter
    ensures counter.count == old(counter.count) + |requests|
  {
    for k := 0 to |requests|
      invariant counter.count == old(counter.count) + k
    {
      var _ := counter.Fetch(requests[k], None);
    }
  }
}
