/** The two response writers that the middleware stacks on the connection. */
module Writers {
  import opened Http

  const BODY_CAP := 4096

  predicate HasHeader(calls: seq<Call>) {
    exists i :: 0 <= i < |calls| && calls[i].WriteHeader?
  }

  /** Code of the first WriteHeader, wherever it comes; 200 when there is none. */
  function FirstHeader(calls: seq<Call>): Code {
    if calls == [] then OK
    else if calls[0].WriteHeader? then calls[0].code
    else FirstHeader(calls[1..])
  }

  /** The status that the very first call decides. */
  function FirstCall(calls: seq<Call>): Code {
    if calls != [] && calls[0].WriteHeader? then calls[0].code else OK
  }

  function OnlyWrites(calls: seq<Call>): seq<Call> {
    if calls == [] then []
    else if calls[0].Write? then [calls[0]] + OnlyWrites(calls[1..])
    else OnlyWrites(calls[1..])
  }

  /** What the capturing writer passes on: its first call, then body writes only. */
  function CaptureForward(calls: seq<Call>): seq<Call> {
    if calls == [] then [] else [calls[0]] + OnlyWrites(calls[1..])
  }

  /** What the logging writer passes on: every write, and the first WriteHeader. */
  function LoggerForward(calls: seq<Call>): seq<Call> {
    if calls == [] then []
    else if calls[0].WriteHeader? then CaptureForward(calls)
    else [calls[0]] + LoggerForward(calls[1..])
  }

  function Captured(calls: seq<Call>): (prefix: seq<Byte>)
    ensures |prefix| <= BODY_CAP
  {
    var body := Body(calls);
    if |body| <= BODY_CAP then body else body[..BODY_CAP]
  }

  lemma {:induction false} OnlyWritesAppend(calls: seq<Call>, more: seq<Call>)
    ensures OnlyWrites(calls + more) == OnlyWrites(calls) + OnlyWrites(more)
  {
    if calls == [] {
      assert calls + more == more;
    } else {
      assert (calls + more)[1..] == calls[1..] + more;
      OnlyWritesAppend(calls[1..], more);
      assert OnlyWrites(calls + more) ==
             if calls[0].Write? then [calls[0]] + (OnlyWrites(calls[1..]) + OnlyWrites(more)) else OnlyWrites(calls[1..]) + OnlyWrites(more);
    }
  }

  lemma CaptureForwardSnoc(calls: seq<Call>, call: Call)
    ensures CaptureForward(calls + [call]) ==
            if call.Write? || calls == [] then CaptureForward(calls) + [call] else CaptureForward(calls)
  {
    if calls == [] {
      assert calls + [call] == [call];
    } else {
      assert (calls + [call])[1..] == calls[1..] + [call];
      OnlyWritesAppend(calls[1..], [call]);
    }
  }

  lemma {:induction false} LoggerForwardSnoc(calls: seq<Call>, call: Call)
    ensures LoggerForward(calls + [call]) ==
            if call.Write? || !HasHeader(calls) then LoggerForward(calls) + [call] else LoggerForward(calls)
  {
    if calls == [] {
      assert calls + [call] == [call];
    } else if calls[0].WriteHeader? {
      CaptureForwardSnoc(calls, call);
    } else {
      assert (calls + [call])[1..] == calls[1..] + [call];
      LoggerForwardSnoc(calls[1..], call);
      assert HasHeader(calls) <==> HasHeader(calls[1..]) by {
        if i :| 0 <= i < |calls| && calls[i].WriteHeader? {
          assert calls[1..][i - 1].WriteHeader?;
        }
      }
    }
  }

  lemma {:induction false} FirstHeaderSnoc(calls: seq<Call>, call: Call)
    ensures FirstHeader(calls + [call]) ==
            if call.WriteHeader? && !HasHeader(calls) then call.code else FirstHeader(calls)
  {
    if calls == [] {
      assert calls + [call] == [call];
    } else if calls[0].Write? {
      assert (calls + [call])[1..] == calls[1..] + [call];
      FirstHeaderSnoc(calls[1..], call);
      assert HasHeader(calls) <==> HasHeader(calls[1..]) by {
        if i :| 0 <= i < |calls| && calls[i].WriteHeader? {
          assert calls[1..][i - 1].WriteHeader?;
        }
      }
    }
  }

  lemma HasHeaderSnoc(calls: seq<Call>, call: Call)
    ensures HasHeader(calls + [call]) == (HasHeader(calls) || call.WriteHeader?)
  {
    if i :| 0 <= i < |calls| && calls[i].WriteHeader? {
      assert (calls + [call])[i].WriteHeader?;
    }
    if call.WriteHeader? {
      assert (calls + [call])[|calls|].WriteHeader?;
    }
  }

  /**
   * errorCaptureWriter. The fields are a function of the calls received so far, so what a
   * reader of `status` or `buf` learns is stated by Valid and by nothing else.
   */
  class CaptureWriter {
    const next: BaseWriter
    var status: Code
    var wroteHeader: bool
    var buf: seq<Byte>
    ghost var calls: seq<Call>

    ghost predicate Valid()
      reads this, next
    {
      && next.Valid()
      && next.calls == CaptureForward(calls)
      && wroteHeader == (calls != [])
      && status == FirstCall(calls)
      && buf == Captured(calls)
    }

    constructor (w: BaseWriter)
      requires w.Valid() && w.calls == []
      ensures Valid() && next == w && calls == []
    {
      next := w;
      status, wroteHeader, buf := OK, false, [];
      calls := [];
    }

    method WriteHeader(code: Code)
      requires Valid()
      modifies this, next
      ensures Valid() && calls == old(calls) + [Call.WriteHeader(code)]
    {
      CaptureForwardSnoc(calls, Call.WriteHeader(code));
      BodyAppend(calls, [Call.WriteHeader(code)]);
      if !wroteHeader {
        status := code;
        wroteHeader := true;
        next.WriteHeader(code);
      }
      calls := calls + [Call.WriteHeader(code)];
    }

    method Write(data: seq<Byte>) returns (n: nat)
      requires Valid()
      modifies this, next
      ensures Valid() && calls == old(calls) + [Call.Write(data)]
      ensures n == |data|
    {
      CaptureForwardSnoc(calls, Call.Write(data));
      BodyAppend(calls, [Call.Write(data)]);
      assert Body([Call.Write(data)]) == data;
      if !wroteHeader {
        status := OK;
        wroteHeader := true;
      }
      var remaining := BODY_CAP - |buf|;
      if remaining > 0 {
        if |data| <= remaining {
          buf := buf + data;
        } else {
          buf := buf + data[..remaining];
        }
      }
      n := next.Write(data);
      calls := calls + [Call.Write(data)];
    }
  }

  /** responseWriter of the request logger. Write is promoted from the wrapped writer. */
  class LoggingWriter {
    const next: CaptureWriter
    var status: Code
    var wroteHeader: bool
    ghost var calls: seq<Call>

    ghost predicate Valid()
      reads this, next, next.next
    {
      && next.Valid()
      && next.calls == LoggerForward(calls)
      && wroteHeader == HasHeader(calls)
      && status == FirstHeader(calls)
    }

    constructor (w: CaptureWriter)
      requires w.Valid() && w.calls == []
      ensures Valid() && next == w && calls == []
    {
      next := w;
      status, wroteHeader := OK, false;
      calls := [];
    }

    method WriteHeader(code: Code)
      requires Valid()
      modifies this, next, next.next
      ensures Valid() && calls == old(calls) + [Call.WriteHeader(code)]
    {
      LoggerForwardSnoc(calls, Call.WriteHeader(code));
      FirstHeaderSnoc(calls, Call.WriteHeader(code));
      HasHeaderSnoc(calls, Call.WriteHeader(code));
      if !wroteHeader {
        status := code;
        wroteHeader := true;
        next.WriteHeader(code);
      }
      calls := calls + [Call.WriteHeader(code)];
    }

    method Write(data: seq<Byte>) returns (n: nat)
      requires Valid()
      modifies this, next, next.next
      ensures Valid() && calls == old(calls) + [Call.Write(data)]
      ensures n == |data|
    {
      LoggerForwardSnoc(calls, Call.Write(data));
      FirstHeaderSnoc(calls, Call.Write(data));
      HasHeaderSnoc(calls, Call.Write(data));
      n := next.Write(data);
      calls := calls + [Call.Write(data)];
    }

    function Status(): (s: Code)
      requires Valid()
      reads this, next, next.next
      ensures s == FirstHeader(calls)
    {
      status
    }
  }

  /** The calls that reach the connection through both writers. */
  function Stacked(calls: seq<Call>): seq<Call> {
    CaptureForward(LoggerForward(calls))
  }

  lemma {:induction false} LoggerKeepsWrites(calls: seq<Call>)
    ensures OnlyWrites(LoggerForward(calls)) == OnlyWrites(calls)
  {
    if calls != [] {
      assert LoggerForward(calls)[0] == calls[0];
      if calls[0].WriteHeader? {
        assert LoggerForward(calls)[1..] == OnlyWrites(calls[1..]);
        OnlyWritesIdempotent(calls[1..]);
      } else {
        assert LoggerForward(calls)[1..] == LoggerForward(calls[1..]);
        LoggerKeepsWrites(calls[1..]);
      }
    }
  }

  lemma {:induction false} OnlyWritesIdempotent(calls: seq<Call>)
    ensures OnlyWrites(OnlyWrites(calls)) == OnlyWrites(calls)
    ensures Body(OnlyWrites(calls)) == Body(calls)
  {
    if calls != [] {
      var rest := OnlyWrites(calls[1..]);
      OnlyWritesIdempotent(calls[1..]);
      if calls[0].Write? {
        assert ([calls[0]] + rest)[1..] == rest;
        assert OnlyWrites([calls[0]] + rest) == [calls[0]] + OnlyWrites(rest);
        assert Body([calls[0]] + rest) == calls[0].data + Body(rest);
      } else {
        assert Body(calls) == Body(calls[1..]);
      }
    }
  }

  /** The logging writer adds nothing to what the capturing writer already filters out. */
  lemma StackedIsCapture(calls: seq<Call>)
    ensures Stacked(calls) == CaptureForward(calls)
    ensures FirstCall(LoggerForward(calls)) == FirstCall(calls)
    ensures Body(LoggerForward(calls)) == Body(calls)
  {
    LoggerKeepsWrites(calls);
    OnlyWritesIdempotent(calls);
    OnlyWritesIdempotent(LoggerForward(calls));
    if calls != [] {
      assert LoggerForward(calls)[0] == calls[0];
      if calls[0].WriteHeader? {
        assert LoggerForward(calls)[1..] == OnlyWrites(calls[1..]);
        OnlyWritesIdempotent(calls[1..]);
      } else {
        assert LoggerForward(calls)[1..] == LoggerForward(calls[1..]);
        LoggerKeepsWrites(calls[1..]);
      }
    }
  }

  lemma {:induction false} LoggerPassesWrites(calls: seq<Call>)
    ensures LoggerForward(OnlyWrites(calls)) == OnlyWrites(calls)
  {
    if calls != [] {
      LoggerPassesWrites(calls[1..]);
      if calls[0].Write? {
        assert OnlyWrites(calls)[1..] == OnlyWrites(calls[1..]);
      }
    }
  }

  /** Each writer passes on every body write, in order, and one header at most: its first, if it has one. */
  lemma {:induction false} OneHeaderEach(calls: seq<Call>)
    ensures OnlyWrites(LoggerForward(calls)) == OnlyWrites(calls) && OnlyWrites(CaptureForward(calls)) == OnlyWrites(calls)
    ensures var out := LoggerForward(calls);
            && (forall i, j :: 0 <= i < j < |out| ==> out[i].Write? || out[j].Write?)
            && HasHeader(out) == HasHeader(calls) && FirstHeader(out) == FirstHeader(calls)
    ensures var out := CaptureForward(calls);
            && (forall j :: 0 < j < |out| ==> out[j].Write?)
            && (calls != [] ==> out[0] == calls[0])
  {
    LoggerKeepsWrites(calls);
    if calls != [] {
      var rest := OnlyWrites(calls[1..]);
      WritesAreWrites(calls[1..]);
      OnlyWritesIdempotent(calls[1..]);
      assert ([calls[0]] + rest)[1..] == rest;
      if calls[0].WriteHeader? {
        assert LoggerForward(calls)[0].WriteHeader?;
      } else {
        OneHeaderEach(calls[1..]);
        var out := LoggerForward(calls[1..]);
        assert LoggerForward(calls) == [calls[0]] + out && ([calls[0]] + out)[1..] == out;
        HeaderBehind(calls[0], calls[1..]);
        HeaderBehind(calls[0], out);
        assert [calls[0]] + calls[1..] == calls;
      }
    }
  }

  lemma HeaderBehind(call: Call, rest: seq<Call>)
    requires call.Write?
    ensures HasHeader([call] + rest) == HasHeader(rest)
  {
    if i :| 0 <= i < |rest| && rest[i].WriteHeader? {
      assert ([call] + rest)[i + 1].WriteHeader?;
    }
    if i :| 0 <= i < |[call] + rest| && ([call] + rest)[i].WriteHeader? {
      assert rest[i - 1].WriteHeader?;
    }
  }

  /** The same with the two writers in the other order. */
  lemma LoggerAfterCapture(calls: seq<Call>)
    ensures LoggerForward(CaptureForward(calls)) == CaptureForward(calls)
  {
    if calls != [] {
      var rest := OnlyWrites(calls[1..]);
      assert ([calls[0]] + rest)[1..] == rest;
      LoggerPassesWrites(calls[1..]);
      OnlyWritesIdempotent(calls[1..]);
    }
  }

  /** The headers a run sends before its first body write. */
  function EarlyHeaders(calls: seq<Call>): seq<Code> {
    if calls == [] || calls[0].Write? then [] else [calls[0].code] + EarlyHeaders(calls[1..])
  }

  /** Can be decided by the caller: no second early header is hidden behind an interim one. */
  predicate NothingSwallowed(calls: seq<Call>) {
    var early := EarlyHeaders(calls);
    |early| <= 1 || !Interim(early[0]) || early[1] == OK
  }

  predicate StartsInterim(calls: seq<Call>) {
    calls != [] && calls[0].WriteHeader? && Interim(calls[0].code)
  }

  /** The reply through both writers, in closed form. */
  lemma StackedReply(calls: seq<Call>)
    ensures Received(Stacked(calls)) ==
            if StartsInterim(calls) then Reply([calls[0].code], OK, Body(calls))
            else Reply([], FirstCall(calls), Body(calls))
  {
    StackedIsCapture(calls);
    if calls != [] {
      var first, tail := Step(FRESH, calls[0]), calls[1..];
      assert Received(Stacked(calls)) == Sent(Deliver(first, OnlyWrites(tail))) by {
        FirstThenWrites(FRESH, calls[0], OnlyWrites(tail));
      }
      WritesOnly(first, tail);
      assert first.body == Payload(calls[0]);
      assert Sent(first).status == if StartsInterim(calls) then OK else FirstCall(calls);
    }
  }

  lemma FirstThenWrites(r: Response, call: Call, rest: seq<Call>)
    ensures Deliver(r, [call] + rest) == Deliver(Step(r, call), rest)
  {
    assert ([call] + rest)[1..] == rest;
  }

  lemma {:induction false} WritesOnly(r: Response, calls: seq<Call>)
    ensures Sent(Deliver(r, OnlyWrites(calls))) == Sent(r.(body := r.body + Body(calls)))
  {
    var rest := OnlyWrites(calls);
    OnlyWritesIdempotent(calls);
    if rest != [] {
      WritesAreWrites(calls);
      CommittedIsFinal(Step(r, rest[0]), rest[1..]);
      assert Body(rest) == rest[0].data + Body(rest[1..]);
      assert (r.body + rest[0].data) + Body(rest[1..]) == r.body + Body(rest);
    } else {
      assert r.body + [] == r.body;
    }
  }

  lemma {:induction false} WritesAreWrites(calls: seq<Call>)
    ensures forall i :: 0 <= i < |OnlyWrites(calls)| ==> OnlyWrites(calls)[i].Write?
  {
    if calls != [] {
      WritesAreWrites(calls[1..]);
    }
  }

  /** The reply on the bare connection, driven by its early headers. */
  function Settled(early: seq<Code>): Code {
    if early == [] then OK else if Interim(early[0]) then Settled(early[1..]) else early[0]
  }

  function Interims(early: seq<Code>): seq<Code> {
    if early == [] || !Interim(early[0]) then [] else [early[0]] + Interims(early[1..])
  }

  function BareSent(r: Response, early: seq<Code>, body: seq<Byte>): Reply {
    Reply(r.interim + Interims(early), Settled(early), r.body + body)
  }

  lemma {:induction false} BareReply(r: Response, calls: seq<Call>)
    requires !r.committed && r.status == OK
    ensures Sent(Deliver(r, calls)) == BareSent(r, EarlyHeaders(calls), Body(calls))
    decreases calls
  {
    if calls == [] {
      assert r.interim + [] == r.interim && r.body + [] == r.body;
    } else {
      BareStep(r, calls[0], EarlyHeaders(calls[1..]), Body(calls[1..]));
      if Step(r, calls[0]).committed {
        CommittedIsFinal(Step(r, calls[0]), calls[1..]);
      } else {
        BareReply(Step(r, calls[0]), calls[1..]);
      }
    }
  }

  /** One call on the bare connection, against the closed form for the rest. */
  lemma {:induction false} BareStep(r: Response, call: Call, early: seq<Code>, body: seq<Byte>)
    requires !r.committed && r.status == OK
    ensures var next, early' := Step(r, call), if call.Write? then [] else [call.code] + early;
            BareSent(r, early', Payload(call) + body) ==
            if next.committed then Sent(next.(body := next.body + body)) else BareSent(next, early, body)
  {
    assert (r.body + Payload(call)) + body == r.body + (Payload(call) + body);
    assert r.interim + [] == r.interim && r.body + [] == r.body;
    if call.WriteHeader? {
      assert ([call.code] + early)[1..] == early;
      assert (r.interim + [call.code]) + Interims(early) == r.interim + ([call.code] + Interims(early));
    }
  }

  /**
   * "Client behavior is unchanged": the reply through both writers is the bare reply exactly
   * when no early header follows an interim one, save a plain 200.
   */
  lemma Transparency(calls: seq<Call>)
    ensures Received(Stacked(calls)) == Received(calls) <==> NothingSwallowed(calls)
  {
    StackedReply(calls);
    BareReply(FRESH, calls);
    var early := EarlyHeaders(calls);
    assert [] + Body(calls) == Body(calls);
    assert [] + Interims(early) == Interims(early);
    assert Received(calls) == Reply(Interims(early), Settled(early), Body(calls));
    if StartsInterim(calls) {
      assert early[0] == calls[0].code;
      if |early| >= 2 {
        var tail := early[1..];
        assert tail[0] == early[1];
        assert Interims(early) == [early[0]] + Interims(tail);
        assert |Interims(early)| == 1 <==> !Interim(early[1]);
      }
    }
  }

  /** Without interim codes, as every handler of this service behaves, nothing is ever swallowed. */
  lemma TransparencyWithoutInterims(calls: seq<Call>)
    requires forall i :: 0 <= i < |calls| && calls[i].WriteHeader? ==> !Interim(calls[i].code)
    ensures Received(Stacked(calls)) == Received(calls)
    ensures Received(calls).status == FirstCall(calls) && Received(calls).interim == []
  {
    Transparency(calls);
    StackedReply(calls);
  }

  /** A run on which the wrappers change what the client sees: Early Hints, then 404. */
  lemma EarlyHintsBreakTransparency()
    ensures var calls := [WriteHeader(103), WriteHeader(404)];
            Received(calls).status == 404 && Received(Stacked(calls)).status == OK
  {
    var calls := [WriteHeader(103), WriteHeader(404)];
    StackedReply(calls);
    BareReply(FRESH, calls);
    assert EarlyHeaders(calls[1..]) == [404] by {
      assert EarlyHeaders(calls[1..][1..]) == [];
    }
    assert EarlyHeaders(calls) == [103, 404];
    assert [103, 404][1..] == [404];
  }

  /** Of the 1xx codes 101 alone ends the header phase; a final status or a body write always does. */
  lemma FirstFinalStatusCommits(code: Code, later: Code)
    ensures Received([WriteHeader(code), WriteHeader(later)]).status ==
            if code >= 200 || code == 101 then code else if later >= 200 || later == 101 then later else 200
    ensures Received([Write([]), WriteHeader(later)]).status == 200
  {
    var first := Step(FRESH, WriteHeader(code));
    FirstThenWrites(FRESH, WriteHeader(code), [WriteHeader(later)]);
    FirstThenWrites(first, WriteHeader(later), []);
    assert [WriteHeader(code)] + [WriteHeader(later)] == [WriteHeader(code), WriteHeader(later)];
    assert [WriteHeader(later)] + [] == [WriteHeader(later)];
    var written := Step(FRESH, Write([]));
    FirstThenWrites(FRESH, Write([]), [WriteHeader(later)]);
    FirstThenWrites(written, WriteHeader(later), []);
    assert [Write([])] + [WriteHeader(later)] == [Write([]), WriteHeader(later)];
  }

  /** The capturing writer's status is the client's, exactly when the run does not open with an interim code. */
  lemma CaptureStatusIsClientStatus(calls: seq<Call>)
    ensures FirstCall(LoggerForward(calls)) == Received(Stacked(calls)).status <==> !StartsInterim(calls)
  {
    StackedIsCapture(calls);
    StackedReply(calls);
  }

  /** The first header of the run trails some write and is not 200. */
  ghost predicate LateHeader(calls: seq<Call>) {
    exists w, h :: 0 <= w < h < |calls| && calls[w].Write? && FirstHeaderAt(calls, h) && calls[h].code != OK
  }

  /** The two layers part exactly when the first header trails some write and is not 200. */
  lemma {:induction false} StatusAgreement(calls: seq<Call>)
    ensures FirstHeader(calls) != FirstCall(LoggerForward(calls)) <==> LateHeader(calls)
  {
    StackedIsCapture(calls);
    if HasHeader(calls) {
      var h := FirstHeaderIndex(calls);
      if h > 0 {
        assert calls[0].Write?;
      }
    } else {
      NoHeader(calls);
    }
  }

  /**
   * The request log's status is the client's exactly when the run neither opens with an interim
   * code nor sends its first header late.
   */
  lemma {:induction false} LogStatusIsClientStatus(calls: seq<Call>)
    ensures FirstHeader(calls) == Received(Stacked(calls)).status <==> !StartsInterim(calls) && !LateHeader(calls)
  {
    StatusAgreement(calls);
    StackedIsCapture(calls);
    StackedReply(calls);
  }

  ghost predicate FirstHeaderAt(calls: seq<Call>, h: nat) {
    h < |calls| && calls[h].WriteHeader? && forall i :: 0 <= i < h ==> calls[i].Write?
  }

  lemma {:induction false} NoHeader(calls: seq<Call>)
    requires !HasHeader(calls)
    ensures FirstHeader(calls) == OK
  {
    if calls != [] {
      assert calls[0].Write?;
      assert forall i :: 0 <= i < |calls[1..]| ==> calls[1..][i] == calls[i + 1];
      NoHeader(calls[1..]);
    }
  }

  lemma {:induction false} FirstHeaderIndex(calls: seq<Call>) returns (h: nat)
    requires HasHeader(calls)
    ensures FirstHeaderAt(calls, h) && FirstHeader(calls) == calls[h].code
    ensures forall k: nat :: FirstHeaderAt(calls, k) ==> k == h
  {
    if calls[0].WriteHeader? {
      h := 0;
    } else {
      var i :| 0 <= i < |calls| && calls[i].WriteHeader?;
      assert calls[1..][i - 1].WriteHeader?;
      h := FirstHeaderIndex(calls[1..]);
      h := h + 1;
    }
  }

  /** A recovered panic after a partial body: the request log says 500, everyone else 200. */
  lemma LateRecoveryIsLoggedOnly(calls: seq<Call>)
    requires calls != [] && !HasHeader(calls)
    ensures var run := calls + [WriteHeader(INTERNAL_SERVER_ERROR)];
            && FirstHeader(run) == INTERNAL_SERVER_ERROR
            && FirstCall(LoggerForward(run)) == OK
            && Received(Stacked(run)) == Reply([], OK, Body(calls))
  {
    var run := calls + [WriteHeader(INTERNAL_SERVER_ERROR)];
    FirstHeaderSnoc(calls, WriteHeader(INTERNAL_SERVER_ERROR));
    StackedIsCapture(run);
    StackedReply(run);
    assert run[0] == calls[0] && calls[0].Write?;
    BodyAppend(calls, [WriteHeader(INTERNAL_SERVER_ERROR)]);
    assert Body([WriteHeader(INTERNAL_SERVER_ERROR)]) == [];
  }

  /** The capture is a prefix of the body, at most 4096 bytes, and final once full. */
  lemma CaptureIsStable(calls: seq<Call>, more: seq<Call>)
    ensures Captured(calls) <= Captured(calls + more) <= Body(calls + more)
    ensures |Captured(calls)| <= 4096
    ensures |Captured(calls)| == 4096 ==> Captured(calls + more) == Captured(calls)
    ensures |Body(calls)| <= 4096 ==> Captured(calls) == Body(calls)
  {
    BodyAppend(calls, more);
  }
}
