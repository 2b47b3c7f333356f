/** The part of net/http's response contract that the response writers rely on. */
module Http {

  // A three-digit status code; net/http refuses any other.
  type Code = c: int | 100 <= c <= 999 witness 200

  type Byte = b: int | 0 <= b < 256

  const OK: Code := 200
  const SWITCHING_PROTOCOLS: Code := 101
  const INTERNAL_SERVER_ERROR: Code := 500

  /** One call on an http.ResponseWriter. */
  datatype Call = WriteHeader(code: Code) | Write(data: seq<Byte>)

  /** Interim responses do not end the header phase (section 15.2 of RFC 9110). */
  predicate Interim(code: Code) {
    code < 200 && code != SWITCHING_PROTOCOLS
  }

  /** What has gone out on the connection so far. */
  datatype Response = Response(committed: bool, status: Code, interim: seq<Code>, body: seq<Byte>)

  const FRESH := Response(false, OK, [], [])

  function Step(r: Response, call: Call): Response {
    match call
    case WriteHeader(code) =>
      if r.committed then r
      else if Interim(code) then r.(interim := r.interim + [code])
      else r.(committed := true, status := code)
    case Write(data) =>
      r.(committed := true, body := r.body + data)
  }

  function Deliver(r: Response, calls: seq<Call>): Response
    decreases calls
  {
    if calls == [] then r else Deliver(Step(r, calls[0]), calls[1..])
  }

  /** The reply a client holds once the handler has returned; an uncommitted reply goes out as 200. */
  datatype Reply = Reply(interim: seq<Code>, status: Code, body: seq<Byte>)

  function Sent(r: Response): Reply {
    Reply(r.interim, r.status, r.body)
  }

  function Received(calls: seq<Call>): Reply {
    Sent(Deliver(FRESH, calls))
  }

  function Payload(call: Call): seq<Byte> {
    if call.Write? then call.data else []
  }

  /** Everything passed to Write, in order. */
  function Body(calls: seq<Call>): seq<Byte> {
    if calls == [] then [] else Payload(calls[0]) + Body(calls[1..])
  }

  lemma {:induction false} DeliverAppend(r: Response, calls: seq<Call>, more: seq<Call>)
    ensures Deliver(r, calls + more) == Deliver(Deliver(r, calls), more)
    decreases calls
  {
    if calls == [] {
      assert calls + more == more;
    } else {
      assert (calls + more)[1..] == calls[1..] + more;
      DeliverAppend(Step(r, calls[0]), calls[1..], more);
    }
  }

  lemma {:induction false} BodyAppend(calls: seq<Call>, more: seq<Call>)
    ensures Body(calls + more) == Body(calls) + Body(more)
  {
    if calls == [] {
      assert calls + more == more;
    } else {
      assert (calls + more)[1..] == calls[1..] + more;
      BodyAppend(calls[1..], more);
    }
  }

  /** Once a status is committed only the body can still change. */
  lemma {:induction false} CommittedIsFinal(r: Response, calls: seq<Call>)
    requires r.committed
    ensures Deliver(r, calls) == r.(body := r.body + Body(calls))
    decreases calls
  {
    if calls != [] {
      CommittedIsFinal(Step(r, calls[0]), calls[1..]);
      assert r.body + (Payload(calls[0]) + Body(calls[1..])) == (r.body + Payload(calls[0])) + Body(calls[1..]);
    } else {
      assert r.body + [] == r.body;
    }
  }

  /** The bare connection, net/http's own writer. */
  class BaseWriter {
    var committed: bool
    var status: Code
    var interim: seq<Code>
    var body: seq<Byte>
    ghost var calls: seq<Call>

    ghost predicate Valid()
      reads this
    {
      Response(committed, status, interim, body) == Deliver(FRESH, calls)
    }

    constructor ()
      ensures Valid() && calls == []
    {
      committed, status, interim, body := false, OK, [], [];
      calls := [];
    }

    method WriteHeader(code: Code)
      requires Valid()
      modifies this
      ensures Valid() && calls == old(calls) + [Call.WriteHeader(code)]
    {
      DeliverAppend(FRESH, calls, [Call.WriteHeader(code)]);
      if !committed {
        if Interim(code) {
          interim := interim + [code];
        } else {
          committed, status := true, code;
        }
      }
      calls := calls + [Call.WriteHeader(code)];
    }

    method Write(data: seq<Byte>) returns (n: nat)
      requires Valid()
      modifies this
      ensures Valid() && calls == old(calls) + [Call.Write(data)]
      ensures n == |data|
    {
      DeliverAppend(FRESH, calls, [Call.Write(data)]);
      committed, body := true, body + data;
      calls := calls + [Call.Write(data)];
      n := |data|;
    }
  }
}
