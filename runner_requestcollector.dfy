/**
 * runner/requestcollector.ts: a fetch wrapper that, depending on its two flags, counts the
 * calls and records the URL of each. With neither flag set `getFetch` is the global fetch
 * itself and nothing is ever recorded.
 */
module RunnerRequestCollector {
  import opened Wrappers
  import opened Fetching

  /** `IRequestCollectorArgs`. */
  datatype Args = Args(count: bool, links: bool)

  /** The link one call records: a string as it is, a `URL` by its `href`, a `Request` by its
      `url`; any other input records nothing. */
  function Link(input: Input): (r: seq<string>)
    ensures |r| <= 1
    ensures input.OtherInput? <==> r == []
  {
    match input
    case Text(s) => [s]
    case Url(href) => [href]
    case Request(url) => [url]
    case OtherInput => []
  }

  /** The links of a sequence of calls, in call order. */
  function Recorded(inputs: seq<Input>): (r: seq<string>)
    ensures |r| <= |inputs|
  {
    if |inputs| == 0 then [] else Recorded(inputs[..|inputs| - 1]) + Link(inputs[|inputs| - 1])
  }

  /** The count and links after these calls through the wrapper. */
  function Collected(args: Args, inputs: seq<Input>): (r: (nat, seq<string>))
    ensures !args.count && !args.links ==> r == (0, [])
    ensures r.0 <= |inputs| && |r.1| <= |inputs|
  {
    (if args.count then |inputs| else 0, if args.links then Recorded(inputs) else [])
  }

  /** Links of later calls come after those of earlier calls. */
  lemma {:induction false} RecordedAppend(a: seq<Input>, b: seq<Input>)
    ensures Recorded(a + b) == Recorded(a) + Recorded(b)
  {
    if |b| > 0 {
      var init := b[..|b| - 1];
      assert (a + b)[..|a + b| - 1] == a + init;
      RecordedAppend(a, init);
    } else {
      assert a + b == a;
    }
  }

  /** Each call records one link exactly when its input is a string, a `URL` or a `Request`,
      so the links number the calls exactly when no other input was given. */
  lemma {:induction false} RecordedAll(inputs: seq<Input>)
    ensures |Recorded(inputs)| == |inputs| <==> forall k :: 0 <= k < |inputs| ==> !inputs[k].OtherInput?
  {
    if |inputs| > 0 {
      var init := inputs[..|inputs| - 1];
      RecordedAll(init);
      assert forall k :: 0 <= k < |init| ==> init[k] == inputs[k];
    }
  }

  class RequestCollector {
    const args: Args
    const network: FetchFunction
    var count: nat
    var links: seq<string>
    /** The inputs of the calls made through the fetch `getFetch` returns. */
    ghost var calls: seq<Input>

    ghost predicate Valid()
      reads this
    {
      (count, links) == Collected(args, calls)
    }

    constructor(args: Args, network: FetchFunction)
      ensures Valid() && this.args == args && this.network == network
      ensures calls == [] && count == 0 && links == []
    {
      this.args := args;
      this.network := network;
      count := 0;
      links := [];
      calls := [];
    }

    /** A call through the fetch `getFetch` returns: the count goes up when counting, the
        input's link is pushed when collecting links, and the arguments go to the network
        unchanged. */
    method Fetch(input: Input, init: Option<Init>) returns (r: Outcome<Response>)
      requires Valid()
      modifies this
      ensures Valid() && calls == old(calls) + [input]
      ensures count == old(count) + (if args.count then 1 else 0)
      ensures links == old(links) + (if args.links then Link(input) else [])
      ensures r == network(input, init)
    {
      calls := calls + [input];
      assert calls[..|calls| - 1] == old(calls);
      assert Recorded(calls) == Recorded(old(calls)) + Link(input);
      if args.count {
        count := count + 1;
      }
      if args.links {
        match input
        case Text(s) => links := links + [s];
        case Url(href) => links := links + [href];
        case Request(url) => links := links + [url];
        case OtherInput =>
      }
      assert count == Collected(args, calls).0;
      assert links == Collected(args, calls).1;
      r := network(input, init);
    }

    /** `getCount`: the number of calls so far when counting, 0 otherwise. */
    function GetCount(): (n: nat)
      requires Valid()
      reads this
      ensures n == if args.count then |calls| else 0
    {
      count
    }

    /** `getLinks`: the links of the calls so far, in call order, when collecting links;
        never more than the calls. */
    function GetLinks(): (r: seq<string>)
      requires Valid()
      reads this
      ensures r == if args.links then Recorded(calls) else []
      ensures |r| <= |calls|
    {
      links
    }
  }

  /** With neither flag set, calls change nothing that can be read back. */
  method PlainFetchRecordsNothing(network: FetchFunction, input: Input, init: Option<Init>)
    returns (n: nat, ls: seq<string>, r: Outcome<Response>)
    ensures n == 0 && ls == [] && r == network(input, init)
  {
    var collector := new RequestCollector(Args(false, false), network);
    r := collector.Fetch(input, init);
    n := collector.GetCount();
    ls := collector.GetLinks();
  }
}
