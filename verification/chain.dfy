/** Chain of Responsibility: each handler tries its own `_handle`; when that
    does not report success, `handle` passes the request to the successor.
    `ConcreteHandler1` takes requests in the range (0, 10]; `DefaultHandler`
    takes everything and reports the end of the chain. */
module Chain {
  import opened Exceptions

  /** A handler and, through its successor field, the rest of the chain.
      `NoSuccessor` is the Python `None` stored as the last successor. */
  datatype Handler =
    | ConcreteHandler1(successor: Handler)
    | DefaultHandler(successor: Handler)
    | NoSuccessor

  const Processed: string := "Request processed"
  const EndOfChain: string := "End of chain."

  /** `ConcreteHandler1`'s own test: `0 < request <= 10`. */
  predicate InRange(request: int) {
    0 < request <= 10
  }

  /** The chain reaches a `DefaultHandler` before it reaches `None`. */
  predicate EndsInDefault(h: Handler) {
    match h
    case ConcreteHandler1(next) => EndsInDefault(next)
    case DefaultHandler(_) => true
    case NoSuccessor => false
  }

  /** `handle(request)`: the line printed by the handler that takes the
      request. Delegating past the last handler calls `handle` on `None`,
      which raises AttributeError before anything is printed. */
  function Handle(h: Handler, request: int): (r: Result<seq<string>>)
    ensures r.Ok? ==> r.value == [Processed] || r.value == [EndOfChain]
    ensures r.Ok? && r.value == [Processed] ==> InRange(request)
    ensures r.Err? ==> r.error == AttributeError("handle") && !EndsInDefault(h)
  {
    match h
    case ConcreteHandler1(next) =>
      if InRange(request) then Ok([Processed]) else Handle(next, request)
    case DefaultHandler(_) => Ok([EndOfChain])
    case NoSuccessor => Err(AttributeError("handle"))
  }

  /** A chain never falls through exactly when it ends in a default handler:
      then every request is handled, and otherwise an out-of-range request
      runs off the end. */
  lemma {:induction false} NeverFallsThrough(h: Handler, request: int)
    ensures EndsInDefault(h) ==> Handle(h, request).Ok?
    ensures !EndsInDefault(h) && !InRange(request) ==> Handle(h, request).Err?
  {
    match h
    case ConcreteHandler1(next) => NeverFallsThrough(next, request);
    case DefaultHandler(_) =>
    case NoSuccessor =>
  }

  /** The outcome of `handle` on any chain. A `ConcreteHandler1` processes an
      in-range request whatever follows it. Any other request is passed along
      until a `DefaultHandler`, which prints "End of chain.", or until `None`,
      which raises. */
  lemma {:induction false} HandleClosedForm(h: Handler, request: int)
    ensures Handle(h, request) ==
              if h.ConcreteHandler1? && InRange(request) then Ok([Processed])
              else if EndsInDefault(h) then Ok([EndOfChain])
              else Err(AttributeError("handle"))
  {
    match h
    case ConcreteHandler1(next) =>
      if !InRange(request) {
        HandleClosedForm(next, request);
      }
    case DefaultHandler(_) =>
    case NoSuccessor =>
  }

  /** In a chain that starts with a `ConcreteHandler1` and ends in a default,
      a request is processed iff it is in range, and reaches the end of the
      chain iff it is not. */
  lemma HandledByRange(h: Handler, request: int)
    requires h.ConcreteHandler1? && EndsInDefault(h)
    ensures Handle(h, request) == Ok(if InRange(request) then [Processed] else [EndOfChain])
  {
  }

  /** What a run of the driver leaves behind: the lines printed so far and
      the exception that stopped it, if any. */
  datatype Run = Run(printed: seq<string>, raised: Option<PyError>)

  /** `Client.delegate(requests)`: handle each request in order, stopping at
      the first exception. */
  function Delegate(h: Handler, requests: seq<int>): (r: Run)
    ensures r.raised.None? <==> forall i :: 0 <= i < |requests| ==> Handle(h, requests[i]).Ok?
    ensures r.raised.None? ==> |r.printed| == |requests|
    ensures r.raised.Some? ==> |r.printed| < |requests| &&
                               Handle(h, requests[|r.printed|]) == Err(r.raised.value)
    ensures forall i :: 0 <= i < |r.printed| ==> Handle(h, requests[i]) == Ok([r.printed[i]])
  {
    if |requests| == 0 then Run([], None)
    else
      match Handle(h, requests[0])
      case Err(e) => Run([], Some(e))
      case Ok(out) =>
        var rest := Delegate(h, requests[1..]);
        assert forall i :: 1 <= i < |requests| ==> requests[i] == requests[1..][i - 1];
        Run(out + rest.printed, rest.raised)
  }

  /** The client's chain: a `ConcreteHandler1` whose successor is a
      `DefaultHandler` with no successor. */
  const ClientChain: Handler := ConcreteHandler1(DefaultHandler(NoSuccessor))

  /** The client never raises, prints one line per request, and that line is
      "Request processed" exactly for the in-range requests. */
  lemma ClientDelegate(requests: seq<int>)
    ensures Delegate(ClientChain, requests).raised.None?
    ensures |Delegate(ClientChain, requests).printed| == |requests|
    ensures forall i :: 0 <= i < |requests| ==>
              Delegate(ClientChain, requests).printed[i] == (if InRange(requests[i]) then Processed else EndOfChain)
  {
  }

  /** The driver: `delegate([2, 5, 30])`. */
  lemma DriverDelegate()
    ensures Delegate(ClientChain, [2, 5, 30]) == Run(["Request processed", "Request processed", "End of chain."], None)
  {
  }
}
