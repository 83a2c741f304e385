/** The request body cap: header rules before a byte is read, then a counted
    receive and a guarded send around an arbitrary application. */
module BodyCap {
  import opened Decimal

  const MAX_REQUEST_BYTES: nat := 512 * 1024

  // ---- the header rules ----

  /** Header names and values as the middleware compares them: lower-cased names,
      stripped values. */
  datatype Header = Header(name: string, value: string)

  datatype Gate = PassThrough | Refuse(status: nat) | Capped(declared: nat)

  function Values(headers: seq<Header>, name: string): (values: seq<string>)
    ensures forall v :: v in values <==> Header(name, v) in headers
  {
    if headers == [] then []
    else (if headers[0].name == name then [headers[0].value] else []) + Values(headers[1..], name)
  }

  predicate IsNumeral(s: string) { s != [] && AllDigits(s) }

  function Admit(verb: string, headers: seq<Header>): Gate {
    if verb !in {"POST", "PUT", "PATCH"} then PassThrough
    else if Values(headers, "transfer-encoding") != [] then Refuse(411)
    else
      var lengths := Values(headers, "content-length");
      if lengths == [] then Refuse(411)
      else if |set v | v in lengths| > 1 || !IsNumeral(lengths[0]) then Refuse(400)
      else if Parse(lengths[0]) > MAX_REQUEST_BYTES then Refuse(413)
      else Capped(Parse(lengths[0]))
  }

  /** Every Content-Length header the request carries says `value`. */
  ghost predicate LengthsSay(headers: seq<Header>, value: string) {
    && Header("content-length", value) in headers
    && forall h | h in headers && h.name == "content-length" :: h.value == value
  }

  ghost predicate HasTransferEncoding(headers: seq<Header>) {
    exists h :: h in headers && h.name == "transfer-encoding"
  }

  /** A body reaches the counted receive exactly when no Transfer-Encoding is
      present and all Content-Length headers agree on one numeral within the cap. */
  lemma CappedExactly(verb: string, headers: seq<Header>, declared: nat)
    requires verb in {"POST", "PUT", "PATCH"}
    ensures Admit(verb, headers) == Capped(declared) <==>
              && !HasTransferEncoding(headers) && declared <= MAX_REQUEST_BYTES
              && exists v :: LengthsSay(headers, v) && IsNumeral(v) && Parse(v) == declared
  {
    var lengths, codings := Values(headers, "content-length"), Values(headers, "transfer-encoding");
    assert codings != [] ==> codings[0] in codings;
    if HasTransferEncoding(headers) {
      var h :| h in headers && h.name == "transfer-encoding";
      assert h.value in codings;
    } else if lengths != [] {
      assert lengths[0] in lengths;
      Agreement(lengths);
      if |set v | v in lengths| == 1 {
        assert LengthsSay(headers, lengths[0]);
      }
      forall v | LengthsSay(headers, v) ensures v == lengths[0] && |set v | v in lengths| == 1 {
        assert Header("content-length", lengths[0]) in headers;
        assert forall x | x in lengths :: Header("content-length", x).value == v;
      }
    }
  }

  ghost predicate HasContentLength(headers: seq<Header>) {
    exists h :: h in headers && h.name == "content-length"
  }

  /** All Content-Length headers agree on one numeral. */
  ghost predicate LengthsAgree(headers: seq<Header>, value: string) { LengthsSay(headers, value) && IsNumeral(value) }

  /** Every gate exactly: other methods pass, a coded or unsized body is refused with
      411, disagreeing or malformed lengths with 400, a length over the cap with 413. */
  lemma AdmitExactly(verb: string, headers: seq<Header>)
    ensures Admit(verb, headers) == PassThrough <==> verb !in {"POST", "PUT", "PATCH"}
    ensures verb in {"POST", "PUT", "PATCH"} ==>
              var gate := Admit(verb, headers);
              && (gate == Refuse(411) <==> HasTransferEncoding(headers) || !HasContentLength(headers))
              && (gate == Refuse(400) <==>
                    && !HasTransferEncoding(headers) && HasContentLength(headers)
                    && !exists v :: LengthsAgree(headers, v))
              && (gate == Refuse(413) <==>
                    && !HasTransferEncoding(headers)
                    && exists v :: LengthsAgree(headers, v) && Parse(v) > MAX_REQUEST_BYTES)
  {
    var lengths, codings := Values(headers, "content-length"), Values(headers, "transfer-encoding");
    assert codings != [] ==> codings[0] in codings;
    if h :| h in headers && h.name == "transfer-encoding" {
      assert h.value in codings;
    }
    if h :| h in headers && h.name == "content-length" {
      assert h.value in lengths;
    }
    if lengths != [] {
      assert lengths[0] in lengths;
      AgreeExactly(headers, lengths);
    }
  }

  lemma AgreeExactly(headers: seq<Header>, lengths: seq<string>)
    requires lengths == Values(headers, "content-length") && lengths != []
    ensures HasContentLength(headers)
    ensures forall v :: LengthsAgree(headers, v) <==> v == lengths[0] && |set x | x in lengths| == 1 && IsNumeral(v)
    ensures |set x | x in lengths| >= 1
  {
    assert lengths[0] in lengths;
    Agreement(lengths);
    assert Header("content-length", lengths[0]) in headers;
    if |set x | x in lengths| == 1 {
      forall h | h in headers && h.name == "content-length" ensures h.value == lengths[0] {
        assert h == Header("content-length", h.value);
        assert h.value in lengths;
      }
    }
    forall v | LengthsSay(headers, v) ensures v == lengths[0] && |set x | x in lengths| == 1 {
      assert Header("content-length", lengths[0]).value == v;
      assert forall x | x in lengths ::
          Header("content-length", x) in headers && Header("content-length", x).value == v;
    }
  }

  lemma Agreement(xs: seq<string>)
    requires xs != []
    ensures |set v | v in xs| >= 1
    ensures |set v | v in xs| == 1 <==> forall v | v in xs :: v == xs[0]
  {
    var all := set v | v in xs;
    assert xs[0] in all;
    if forall v | v in xs :: v == xs[0] {
      assert all == {xs[0]};
    } else {
      var v :| v in xs && v != xs[0];
      assert {xs[0], v} <= all;
      SubsetSize({xs[0], v}, all);
    }
    if |all| == 1 {
      assert |all - {xs[0]}| == 0;
    }
  }

  lemma SubsetSize<T>(a: set<T>, b: set<T>)
    requires a <= b
    ensures |a| <= |b|
  {
    assert b == a + (b - a);
  }

  // ---- the counted receive and the guarded send ----

  type Bytes = seq<bv8>

  datatype Inbound = Request(body: Bytes, more: bool) | Disconnect | OtherInbound(tag: nat)
  datatype Outbound = ResponseStart(status: nat) | ResponseBody(body: Bytes) | OtherOutbound(tag: nat)

  /** What a receive gives the application. */
  datatype Received = Got(message: Inbound) | RaisedTooLarge

  /** One thing the application does. Any application behaviour is a script, since
      what it is shown is determined by the stream and the script so far. */
  datatype Act = Receive | Send(message: Outbound)

  /** How the application ends: by returning, by letting the too-large exception
      through, or by raising something else. */
  datatype Exit = Returns | RaisesTooLarge | RaisesOther

  datatype Exchange = Exchange(received: nat, started: bool, refused: bool, stream: seq<Inbound>,
                               seen: seq<Received>, wire: seq<Outbound>)

  function Begin(stream: seq<Inbound>): Exchange { Exchange(0, false, false, stream, [], []) }

  function Head(stream: seq<Inbound>): Inbound { if stream == [] then Disconnect else stream[0] }

  function Tail(stream: seq<Inbound>): seq<Inbound> { if stream == [] then [] else stream[1..] }

  function Size(m: Inbound): nat { if m.Request? then |m.body| else 0 }

  function AfterAct(x: Exchange, act: Act, declared: nat): Exchange {
    match act
    case Receive =>
      if x.refused then x.(seen := x.seen + [Got(Disconnect)])
      else
        var m, total := Head(x.stream), x.received + Size(Head(x.stream));
        var y := x.(stream := Tail(x.stream), received := total);
        if total > declared then y.(refused := true, seen := x.seen + [RaisedTooLarge])
        else y.(seen := x.seen + [Got(m)])
    case Send(m) =>
      if x.refused then x else x.(started := x.started || m.ResponseStart?, wire := x.wire + [m])
  }

  function AfterScript(x: Exchange, script: seq<Act>, declared: nat): Exchange
    decreases |script|
  {
    if script == [] then x else AfterScript(AfterAct(x, script[0], declared), script[1..], declared)
  }

  /** The answer the middleware writes itself; its body text is abbreviated. */
  function Answer(status: nat): seq<Outbound> { [ResponseStart(status), ResponseBody([])] }

  function Concluded(x: Exchange, exit: Exit): seq<Outbound> {
    if !exit.RaisesOther? && x.refused && !x.started then x.wire + Answer(413) else x.wire
  }

  /** The middleware call of one capped request. */
  class CappedCall {
    const declared: nat
    var received: nat
    var started: bool
    var refused: bool
    var stream: seq<Inbound>
    var seen: seq<Received>
    var wire: seq<Outbound>

    ghost function Now(): Exchange
      reads this
    {
      Exchange(received, started, refused, stream, seen, wire)
    }

    constructor (declared: nat, stream: seq<Inbound>)
      ensures this.declared == declared && Now() == Begin(stream)
    {
      this.declared := declared;
      received, started, refused := 0, false, false;
      this.stream, seen, wire := stream, [], [];
    }

    method CountedReceive()
      modifies this
      ensures Now() == AfterAct(old(Now()), Receive, declared)
    {
      if refused {
        seen := seen + [Got(Disconnect)];
        return;
      }
      var message := Head(stream);
      stream := Tail(stream);
      if message.Request? {
        received := received + |message.body|;
      }
      if received > declared {
        refused := true;
        seen := seen + [RaisedTooLarge];
        return;
      }
      seen := seen + [Got(message)];
    }

    method GuardedSend(message: Outbound)
      modifies this
      ensures Now() == AfterAct(old(Now()), Send(message), declared)
    {
      if refused {
        return;
      }
      if message.ResponseStart? {
        started := true;
      }
      wire := wire + [message];
    }

    /** Runs the application and, where it was refused before it started a response,
        answers for it. */
    method Run(script: seq<Act>, exit: Exit)
      modifies this
      ensures wire == Concluded(AfterScript(old(Now()), script, declared), exit)
      ensures seen == AfterScript(old(Now()), script, declared).seen
    {
      var k := 0;
      while k < |script|
        invariant 0 <= k <= |script|
        invariant AfterScript(Now(), script[k..], declared) == AfterScript(old(Now()), script, declared)
      {
        match script[k] {
          case Receive => CountedReceive();
          case Send(message) => GuardedSend(message);
        }
        assert script[k..][1..] == script[k + 1..];
        k := k + 1;
      }
      if !exit.RaisesOther? && refused && !started {
        wire := wire + Answer(413);
      }
    }
  }

  /** The middleware, from the headers on: what the application was shown, and what
      went out on the wire. */
  method Handle(verb: string, headers: seq<Header>, stream: seq<Inbound>, script: seq<Act>, exit: Exit)
      returns (seen: seq<Received>, wire: seq<Outbound>)
    ensures verb !in {"POST", "PUT", "PATCH"} ==> (seen, wire) == Unwrapped(stream, script)
    ensures verb in {"POST", "PUT", "PATCH"} && (HasTransferEncoding(headers) || !HasContentLength(headers)) ==>
              seen == [] && wire == [ResponseStart(411), ResponseBody([])]
    ensures Admit(verb, headers) == Refuse(400) ==> seen == [] && wire == [ResponseStart(400), ResponseBody([])]
    ensures Admit(verb, headers) == Refuse(413) ==> seen == [] && wire == [ResponseStart(413), ResponseBody([])]
    ensures Admit(verb, headers).Capped? ==>
              var x := AfterScript(Begin(stream), script, Admit(verb, headers).declared);
              seen == x.seen && wire == Concluded(x, exit)
  {
    AdmitExactly(verb, headers);
    match Admit(verb, headers) {
      case PassThrough =>
        seen, wire := Unwrapped(stream, script).0, Unwrapped(stream, script).1;
      case Refuse(status) =>
        seen, wire := [], Answer(status);
      case Capped(declared) =>
        var call := new CappedCall(declared, stream);
        call.Run(script, exit);
        seen, wire := call.seen, call.wire;
    }
  }

  // ---- properties of every exchange ----

  function Delivered(seen: seq<Received>): nat {
    if seen == [] then 0
    else Delivered(seen[..|seen| - 1]) + (if seen[|seen| - 1].Got? then Size(seen[|seen| - 1].message) else 0)
  }

  function Starts(wire: seq<Outbound>): nat {
    if wire == [] then 0 else Starts(wire[..|wire| - 1]) + (if wire[|wire| - 1].ResponseStart? then 1 else 0)
  }

  function StartsSent(script: seq<Act>): nat {
    if script == [] then 0
    else StartsOf(script[0]) + StartsSent(script[1..])
  }

  ghost predicate Sound(x: Exchange, declared: nat) {
    && Delivered(x.seen) <= declared
    && (!x.refused ==> Delivered(x.seen) == x.received <= declared)
    && (x.started <==> Starts(x.wire) > 0)
  }

  /** What one act keeps: soundness, both logs, and a refusal; and how many starts it adds. */
  ghost predicate Kept(x: Exchange, y: Exchange, starts: nat, declared: nat) {
    && Sound(y, declared) && Starts(y.wire) <= Starts(x.wire) + starts
    && x.seen <= y.seen && x.wire <= y.wire
    && (x.refused ==> y.refused && y.wire == x.wire)
  }

  lemma {:induction false} ReceiveKeepsSound(x: Exchange, declared: nat)
    requires Sound(x, declared)
    ensures Kept(x, AfterAct(x, Receive, declared), 0, declared)
  {
    var y := AfterAct(x, Receive, declared);
    assert y.seen[..|y.seen| - 1] == x.seen;
  }

  lemma {:induction false} SendKeepsSound(x: Exchange, m: Outbound, declared: nat)
    requires Sound(x, declared)
    ensures Kept(x, AfterAct(x, Send(m), declared), if m.ResponseStart? then 1 else 0, declared)
  {
    var y := AfterAct(x, Send(m), declared);
    if !x.refused {
      assert y.wire[..|y.wire| - 1] == x.wire;
    }
  }

  function StartsOf(act: Act): nat { if act.Send? && act.message.ResponseStart? then 1 else 0 }

  lemma {:induction false} ActKeepsSound(x: Exchange, act: Act, declared: nat)
    requires Sound(x, declared)
    ensures Kept(x, AfterAct(x, act, declared), StartsOf(act), declared)
  {
    match act {
      case Receive => ReceiveKeepsSound(x, declared);
      case Send(m) => SendKeepsSound(x, m, declared);
    }
  }

  lemma {:induction false} ScriptKeepsSound(x: Exchange, script: seq<Act>, declared: nat)
    requires Sound(x, declared)
    ensures Kept(x, AfterScript(x, script, declared), StartsSent(script), declared)
    decreases |script|
  {
    if script != [] {
      ActKeepsSound(x, script[0], declared);
      ScriptKeepsSound(AfterAct(x, script[0], declared), script[1..], declared);
    }
  }

  /** Whatever the application and the transport do: it is shown at most the
      declared bytes, and an application that starts at most one response gets at
      most one start on the wire, the middleware's own answer included. */
  lemma CapHolds(stream: seq<Inbound>, script: seq<Act>, exit: Exit, declared: nat)
    ensures var x := AfterScript(Begin(stream), script, declared);
            && Delivered(x.seen) <= declared
            && (StartsSent(script) <= 1 ==> Starts(Concluded(x, exit)) <= 1)
  {
    ScriptKeepsSound(Begin(stream), script, declared);
    ConcludedStarts(AfterScript(Begin(stream), script, declared), exit, declared);
  }

  lemma ConcludedStarts(x: Exchange, exit: Exit, declared: nat)
    requires Sound(x, declared)
    ensures Starts(Concluded(x, exit)) == (if Concluded(x, exit) == x.wire then Starts(x.wire) else 1)
  {
    var w := x.wire + Answer(413);
    assert w[..|w| - 1] == x.wire + [ResponseStart(413)];
    assert (x.wire + [ResponseStart(413)])[..|x.wire|] == x.wire;
  }

  /** Once refused, the application sees nothing but disconnects, and nothing it
      sends reaches the wire. */
  lemma {:induction false} RefusalIsFinal(x: Exchange, script: seq<Act>, declared: nat)
    requires x.refused
    ensures var y := AfterScript(x, script, declared);
            && y.refused && y.wire == x.wire && y.started == x.started
            && |x.seen| <= |y.seen| && y.seen[..|x.seen|] == x.seen
            && forall i | |x.seen| <= i < |y.seen| :: y.seen[i] == Got(Disconnect)
    decreases |script|
  {
    if script != [] {
      var x' := AfterAct(x, script[0], declared);
      RefusalIsFinal(x', script[1..], declared);
      var y := AfterScript(x, script, declared);
      assert y.seen[..|x.seen|] == y.seen[..|x'.seen|][..|x.seen|];
    }
  }

  /** The middleware adds nothing of its own to an exchange that was not refused, that
      had started its response, or whose application failed otherwise. */
  lemma ConcludedAddsExactly(x: Exchange, exit: Exit)
    ensures Concluded(x, exit) != x.wire <==> x.refused && !x.started && (exit.Returns? || exit.RaisesTooLarge?)
  {
    assert |Concluded(x, exit)| == |x.wire| || |Concluded(x, exit)| == |x.wire| + 2;
  }

  /** Refused before a response started, with the application returning or letting
      the exception through: the one response on the wire is the 413, and it is
      the last thing on it. */
  lemma RefusedIsAnsweredOnce(stream: seq<Inbound>, script: seq<Act>, exit: Exit, declared: nat)
    requires !exit.RaisesOther?
    requires AfterScript(Begin(stream), script, declared).refused
    requires !AfterScript(Begin(stream), script, declared).started
    ensures var x := AfterScript(Begin(stream), script, declared);
            && Concluded(x, exit) == x.wire + [ResponseStart(413), ResponseBody([])]
            && Starts(x.wire) == 0 && Starts(Concluded(x, exit)) == 1
  {
    ScriptKeepsSound(Begin(stream), script, declared);
    ConcludedStarts(AfterScript(Begin(stream), script, declared), exit, declared);
  }

  // ---- transparency ----

  function Receives(script: seq<Act>): nat {
    if script == [] then 0 else (if script[0].Receive? then 1 else 0) + Receives(script[1..])
  }

  /** What the application would receive and put on the wire without the middleware. */
  function Unwrapped(stream: seq<Inbound>, script: seq<Act>): (seq<Received>, seq<Outbound>)
    decreases |script|
  {
    if script == [] then ([], [])
    else match script[0]
      case Receive => var (s, w) := Unwrapped(Tail(stream), script[1..]); ([Got(Head(stream))] + s, w)
      case Send(m) => var (s, w) := Unwrapped(stream, script[1..]); (s, [m] + w)
  }

  /** The bytes of the first `k` messages of the stream. */
  function Pulled(stream: seq<Inbound>, k: nat): nat
    decreases k
  {
    if k == 0 then 0 else Size(Head(stream)) + Pulled(Tail(stream), k - 1)
  }

  lemma {:induction false} OverrunsFrom(x: Exchange, script: seq<Act>, declared: nat)
    requires !x.refused && x.received <= declared
    ensures AfterScript(x, script, declared).refused <==> x.received + Pulled(x.stream, Receives(script)) > declared
    decreases |script|
  {
    if script != [] {
      var x' := AfterAct(x, script[0], declared);
      if x'.refused {
        RefusalIsFinal(x', script[1..], declared);
      } else {
        OverrunsFrom(x', script[1..], declared);
      }
    }
  }

  lemma {:induction false} TransparentFrom(x: Exchange, script: seq<Act>, declared: nat)
    requires !x.refused && !AfterScript(x, script, declared).refused
    ensures var y := AfterScript(x, script, declared);
            y.seen == x.seen + Unwrapped(x.stream, script).0 && y.wire == x.wire + Unwrapped(x.stream, script).1
    decreases |script|
  {
    if script != [] {
      var x' := AfterAct(x, script[0], declared);
      if x'.refused {
        RefusalIsFinal(x', script[1..], declared);
      }
      TransparentFrom(x', script[1..], declared);
    }
  }

  /** The middleware refuses exactly when the messages the application asks for
      carry more than the declared bytes; otherwise it is transparent in both
      directions. */
  lemma RefusesExactlyOverruns(stream: seq<Inbound>, script: seq<Act>, exit: Exit, declared: nat)
    ensures var x := AfterScript(Begin(stream), script, declared);
            && (x.refused <==> Pulled(stream, Receives(script)) > declared)
            && (!x.refused ==> x.seen == Unwrapped(stream, script).0
                               && Concluded(x, exit) == Unwrapped(stream, script).1)
  {
    OverrunsFrom(Begin(stream), script, declared);
    if !AfterScript(Begin(stream), script, declared).refused {
      TransparentFrom(Begin(stream), script, declared);
    }
  }
}
