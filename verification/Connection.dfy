/** The synchronous connection (pkg/rpc/connection.go): any number of callers share one socket under a mutex, and the
    request id counter (pkg/rpc/jsonrpc.go) with the rest of the process. Their steps interleave in any order. */
module Connection {
  import opened Prelude
  import opened Text

  datatype Val = Str(text: string) | Num(n: int) | Json(raw: string)

  /** A params map, or nil. */
  type Params = Option<map<string, Val>>

  datatype Entry = Entry(method_: string, params: Params)

  datatype Job = Call(entry: Entry) | CallBatch(entries: seq<Entry>) | Handshake(name: string, major: int, minor: int)

  /** The serial number is the count of ids drawn when this one was; the id on the wire is what a uint64 keeps of it. */
  datatype Request = Request(serial: nat, method_: string, params: Params)

  /** `handle` is the api_h found in a result: None if the result does not parse as an object, "" if it has none. */
  datatype Response = Failed(code: int) | Ok(value: string, handle: Option<string>)

  datatype Body = Garbage | Single(response: Response) | Array(responses: seq<Response>)

  datatype Payload = Payload(batch: bool, reqs: seq<Request>)

  /** The server says which request ids it answers; the client never looks. */
  datatype Reply = Reply(to: seq<string>, body: Body)

  datatype Wire = Sent(payload: Payload) | Received(reply: Reply)

  datatype CallError = BadParams | BadReply | RpcError(code: int) | NoHandle

  function Entries(job: Job): seq<Entry> {
    match job
    case Call(e) => [e]
    case CallBatch(es) => es
    case Handshake(name, major, minor) =>
      [Entry("api_sync_v2", Some(map["name" := Str(name), "major" := Num(major), "minor" := Num(minor)]))]
  }

  function Id(r: Request): string {
    Decimal(r.serial % TWO_64)
  }

  function Ids(reqs: seq<Request>): seq<string> {
    seq(|reqs|, i requires 0 <= i < |reqs| => Id(reqs[i]))
  }

  function WithHandle(p: Params, apiH: string): Params {
    if apiH == "" then p else Some((if p.Some? then p.value else map[])["api_h" := Str(apiH)])
  }

  /** What a job returns for the reply it reads: ParseResponse takes a single object, ParseBatchResponse an array or a
      bare object. */
  function Outcome(job: Job, body: Body): Result<seq<Response>, CallError> {
    if body.Garbage? then Result.Err(BadReply)
    else if job.CallBatch? then Result.Ok(if body.Single? then [body.response] else body.responses)
    else if body.Array? then Result.Err(BadReply)
    else if body.response.Failed? then Result.Err(RpcError(body.response.code))
    else if job.Handshake? && body.response.handle.None? then Result.Err(BadReply)
    else if job.Handshake? && body.response.handle.value == "" then Result.Err(NoHandle)
    else Result.Ok([body.response])
  }

  /** The handle a job leaves behind. */
  function NewHandle(job: Job, body: Body, apiH: string): string {
    if job.Handshake? && Outcome(job, body).Ok? then Outcome(job, body).value[0].handle.value else apiH
  }

  /** Who holds the mutex, what it has built so far, and whether it has sent it. */
  datatype Holder = Holder(caller: nat, job: Job, built: seq<Request>, sent: bool)

  datatype Done = Done(caller: nat, job: Job, reqs: seq<Request>, reply: Reply,
                       outcome: Result<seq<Response>, CallError>)

  /** inbox and outbox are the server's side of the socket; wire and log record what happened. */
  datatype Conn = Conn(holder: Option<Holder>, apiH: string, counter: nat, inbox: seq<Payload>, outbox: seq<Reply>,
                       wire: seq<Wire>, log: seq<Done>)

  /** A caller takes the mutex, builds its next request or fails to, sends, and receives; the server answers the next
      message in its own time; somebody else in the process draws an id. An action that is not enabled does nothing. */
  datatype Action = Lock(caller: nat, job: Job) | Build | BuildFails | Send | Serve(body: Body) | Receive | Foreign

  function Start(counter: nat): Conn {
    Conn(None, "", counter, [], [], [], [])
  }

  predicate Building(c: Conn) {
    c.holder.Some? && !c.holder.value.sent && |c.holder.value.built| < |Entries(c.holder.value.job)|
  }

  function Built(c: Conn): Holder
    requires Building(c)
  {
    var h := c.holder.value;
    var e := Entries(h.job)[|h.built|];
    h.(built := h.built + [Request(c.counter + 1, e.method_, WithHandle(e.params, c.apiH))])
  }

  function PayloadOf(h: Holder): Payload {
    Payload(h.job.CallBatch?, h.built)
  }

  function Finished(h: Holder, reply: Reply): Done {
    Done(h.caller, h.job, h.built, reply, Outcome(h.job, reply.body))
  }

  predicate CanReceive(c: Conn) {
    c.holder.Some? && c.holder.value.sent && c.outbox != []
  }

  function Step(c: Conn, a: Action): Conn {
    match a
    case Lock(caller, job) => if c.holder.None? then c.(holder := Some(Holder(caller, job, [], false))) else c
    case Build => if Building(c) then c.(holder := Some(Built(c)), counter := c.counter + 1) else c
    case BuildFails => if Building(c) then c.(holder := None, counter := c.counter + 1) else c
    case Send =>
      if c.holder.Some? && !c.holder.value.sent && !Building(c) then
        var p := PayloadOf(c.holder.value);
        c.(holder := Some(c.holder.value.(sent := true)), inbox := c.inbox + [p], wire := c.wire + [Sent(p)])
      else c
    case Serve(body) =>
      if c.inbox != [] then c.(inbox := c.inbox[1..], outbox := c.outbox + [Reply(Ids(c.inbox[0].reqs), body)]) else c
    case Receive =>
      if CanReceive(c) then
        var h, reply := c.holder.value, c.outbox[0];
        c.(holder := None, outbox := c.outbox[1..], wire := c.wire + [Received(reply)],
           log := c.log + [Finished(h, reply)], apiH := NewHandle(h.job, reply.body, c.apiH))
      else c
    case Foreign => c.(counter := c.counter + 1)
  }

  function Run(c: Conn, acts: seq<Action>): Conn {
    if acts == [] then c else Step(Run(c, acts[..|acts| - 1]), acts[|acts| - 1])
  }

  // ----- what a run must look like, told by the log of finished jobs

  /** Each job's message followed by its own reply. */
  function Transcript(log: seq<Done>): seq<Wire> {
    if log == [] then [] else
      var d := log[|log| - 1];
      Transcript(log[..|log| - 1]) + [Sent(Payload(d.job.CallBatch?, d.reqs)), Received(d.reply)]
  }

  /** The handle of the last successful handshake. */
  function HandleAfter(log: seq<Done>): string {
    if log == [] then "" else
      NewHandle(log[|log| - 1].job, log[|log| - 1].reply.body, HandleAfter(log[..|log| - 1]))
  }

  /** The requests are those of the entries, in order, each with the handle. */
  ghost predicate Carries(reqs: seq<Request>, entries: seq<Entry>, apiH: string) {
    && |reqs| <= |entries|
    && forall i :: 0 <= i < |reqs| ==>
         reqs[i].method_ == entries[i].method_ && reqs[i].params == WithHandle(entries[i].params, apiH)
  }

  ghost predicate Answered(d: Done, apiH: string) {
    && |d.reqs| == |Entries(d.job)| && Carries(d.reqs, Entries(d.job), apiH)
    && d.reply.to == Ids(d.reqs) && d.outcome == Outcome(d.job, d.reply.body)
  }

  function AllRequests(log: seq<Done>): seq<Request> {
    if log == [] then [] else AllRequests(log[..|log| - 1]) + log[|log| - 1].reqs
  }

  /** Serial numbers rise strictly above lo and up to hi. */
  ghost predicate Rising(reqs: seq<Request>, lo: nat, hi: nat) {
    && (forall i :: 0 <= i < |reqs| ==> lo < reqs[i].serial <= hi)
    && (forall i, j :: 0 <= i < j < |reqs| ==> reqs[i].serial < reqs[j].serial)
  }

  /** What is between client and server: nothing, or the holder's message, or the answer to it. */
  ghost predicate InFlight(c: Conn) {
    if c.holder.Some? && c.holder.value.sent then
      || (c.inbox == [PayloadOf(c.holder.value)] && c.outbox == [])
      || (c.inbox == [] && |c.outbox| == 1 && c.outbox[0].to == Ids(c.holder.value.built))
    else c.inbox == [] && c.outbox == []
  }

  function Held(c: Conn): seq<Request> {
    if c.holder.Some? then c.holder.value.built else []
  }

  function Tail(c: Conn): seq<Wire> {
    if c.holder.Some? && c.holder.value.sent then [Sent(PayloadOf(c.holder.value))] else []
  }

  ghost predicate HolderOk(c: Conn) {
    c.holder.Some? ==>
      && Carries(c.holder.value.built, Entries(c.holder.value.job), c.apiH)
      && (c.holder.value.sent ==> |c.holder.value.built| == |Entries(c.holder.value.job)|)
  }

  ghost predicate LogOk(log: seq<Done>) {
    forall k :: 0 <= k < |log| ==> Answered(log[k], HandleAfter(log[..k]))
  }

  ghost predicate Inv(c: Conn, start: nat) {
    && c.wire == Transcript(c.log) + Tail(c)
    && InFlight(c) && HolderOk(c) && LogOk(c.log)
    && c.apiH == HandleAfter(c.log)
    && start <= c.counter && Rising(AllRequests(c.log) + Held(c), start, c.counter)
  }

  lemma CarriesNext(reqs: seq<Request>, entries: seq<Entry>, apiH: string, r: Request)
    requires Carries(reqs, entries, apiH) && |reqs| < |entries|
    requires r.method_ == entries[|reqs|].method_ && r.params == WithHandle(entries[|reqs|].params, apiH)
    ensures Carries(reqs + [r], entries, apiH)
  {
  }

  lemma RisingNext(a: seq<Request>, b: seq<Request>, lo: nat, hi: nat, r: Request)
    requires Rising(a + b, lo, hi) && r.serial == hi + 1 && lo <= hi
    ensures Rising(a + (b + [r]), lo, hi + 1)
  {
    assert a + (b + [r]) == (a + b) + [r];
  }

  lemma BuildKeeps(c: Conn, start: nat)
    requires Inv(c, start)
    ensures Inv(Step(c, Build), start)
  {
    if Building(c) {
      var h := c.holder.value;
      var r := Built(c).built[|h.built|];
      CarriesNext(h.built, Entries(h.job), c.apiH, r);
      RisingNext(AllRequests(c.log), h.built, start, c.counter, r);
    }
  }

  lemma BuildFailsKeeps(c: Conn, start: nat)
    requires Inv(c, start)
    ensures Inv(Step(c, BuildFails), start)
  {
    if Building(c) {
      BuildFailsRising(AllRequests(c.log), Held(c), start, c.counter);
    }
  }

  lemma BuildFailsRising(a: seq<Request>, b: seq<Request>, lo: nat, hi: nat)
    requires Rising(a + b, lo, hi)
    ensures Rising(a + [], lo, hi + 1)
  {
    RisingPrefix(a, b, lo, hi);
    assert a + [] == a;
  }

  lemma RisingPrefix(a: seq<Request>, b: seq<Request>, lo: nat, hi: nat)
    requires Rising(a + b, lo, hi)
    ensures Rising(a, lo, hi)
  {
    assert forall i :: 0 <= i < |a| ==> (a + b)[i] == a[i];
  }

  lemma ReceiveKeeps(c: Conn, start: nat)
    requires Inv(c, start)
    ensures Inv(Step(c, Receive), start)
  {
    if CanReceive(c) {
      ReceivedIsFinished(c);
      ReceivedIsLogged(c, start);
    }
  }

  /** The job that ends was answered. */
  lemma ReceivedIsFinished(c: Conn)
    requires InFlight(c) && HolderOk(c) && LogOk(c.log) && c.apiH == HandleAfter(c.log) && CanReceive(c)
    ensures LogOk(Step(c, Receive).log)
  {
    LogGrows(c.log, Finished(c.holder.value, c.outbox[0]));
  }

  /** Wire, handle and serial numbers follow the log. */
  lemma ReceivedIsLogged(c: Conn, start: nat)
    requires c.wire == Transcript(c.log) + Tail(c) && InFlight(c) && c.apiH == HandleAfter(c.log) && CanReceive(c)
    requires Rising(AllRequests(c.log) + Held(c), start, c.counter)
    ensures var c' := Step(c, Receive);
            && c'.wire == Transcript(c'.log) + Tail(c') && InFlight(c') && HolderOk(c')
            && c'.apiH == HandleAfter(c'.log) && Rising(AllRequests(c'.log) + Held(c'), start, c'.counter)
  {
    var c', d := Step(c, Receive), Finished(c.holder.value, c.outbox[0]);
    LogSplits(c.log, d);
    assert c'.wire == Transcript(c.log) + [Sent(PayloadOf(c.holder.value)), Received(c.outbox[0])];
    assert AllRequests(c'.log) + Held(c') == AllRequests(c.log) + Held(c);
  }

  lemma LogSplits(log: seq<Done>, d: Done)
    ensures Transcript(log + [d]) == Transcript(log) + [Sent(Payload(d.job.CallBatch?, d.reqs)), Received(d.reply)]
    ensures AllRequests(log + [d]) == AllRequests(log) + d.reqs
    ensures HandleAfter(log + [d]) == NewHandle(d.job, d.reply.body, HandleAfter(log))
  {
    assert (log + [d])[..|log|] == log;
  }

  lemma LogGrows(log: seq<Done>, d: Done)
    requires LogOk(log) && Answered(d, HandleAfter(log))
    ensures LogOk(log + [d])
  {
    forall k | 0 <= k < |log + [d]|
      ensures Answered((log + [d])[k], HandleAfter((log + [d])[..k]))
    {
      assert (log + [d])[..k] == if k < |log| then log[..k] else log;
    }
  }

  lemma SendKeeps(c: Conn, start: nat)
    requires Inv(c, start)
    ensures Inv(Step(c, Send), start)
  {
  }

  lemma ServeKeeps(c: Conn, start: nat, body: Body)
    requires Inv(c, start)
    ensures Inv(Step(c, Serve(body)), start)
  {
  }

  lemma LockKeeps(c: Conn, start: nat, caller: nat, job: Job)
    requires Inv(c, start)
    ensures Inv(Step(c, Lock(caller, job)), start)
  {
  }

  lemma ForeignKeeps(c: Conn, start: nat)
    requires Inv(c, start)
    ensures Inv(Step(c, Foreign), start)
  {
    var c' := c.(counter := c.counter + 1);
    RisingWiden(AllRequests(c.log) + Held(c), start, c.counter);
    assert Held(c') == Held(c) && Tail(c') == Tail(c) && InFlight(c') && HolderOk(c');
  }

  lemma RisingWiden(reqs: seq<Request>, lo: nat, hi: nat)
    requires Rising(reqs, lo, hi)
    ensures Rising(reqs, lo, hi + 1)
  {
  }

  lemma StepKeeps(c: Conn, start: nat, a: Action)
    requires Inv(c, start)
    ensures Inv(Step(c, a), start)
  {
    match a
    case Lock(caller, job) => LockKeeps(c, start, caller, job);
    case Build => BuildKeeps(c, start);
    case BuildFails => BuildFailsKeeps(c, start);
    case Send => SendKeeps(c, start);
    case Serve(body) => ServeKeeps(c, start, body);
    case Receive => ReceiveKeeps(c, start);
    case Foreign => ForeignKeeps(c, start);
  }

  lemma {:induction false} RunFromKeeps(c: Conn, start: nat, acts: seq<Action>)
    requires Inv(c, start)
    ensures Inv(Run(c, acts), start)
    decreases |acts|
  {
    if acts != [] {
      RunFromKeeps(c, start, acts[..|acts| - 1]);
      StepKeeps(Run(c, acts[..|acts| - 1]), start, acts[|acts| - 1]);
    }
  }

  lemma RunKeeps(start: nat, acts: seq<Action>)
    ensures Inv(Run(Start(start), acts), start)
  {
    RunFromKeeps(Start(start), start, acts);
  }

  // ----- the theorems, over every run

  lemma {:induction false} TranscriptAt(log: seq<Done>, k: nat)
    requires k < |log|
    ensures |Transcript(log)| == 2 * |log|
    ensures Transcript(log)[2 * k] == Sent(Payload(log[k].job.CallBatch?, log[k].reqs))
    ensures Transcript(log)[2 * k + 1] == Received(log[k].reply)
    decreases |log|
  {
    var before := log[..|log| - 1];
    if before != [] {
      TranscriptAt(before, if k < |before| then k else 0);
    }
  }

  lemma TranscriptLength(log: seq<Done>)
    ensures |Transcript(log)| == 2 * |log|
  {
    if log != [] { TranscriptAt(log, 0); }
  }

  /** The wire is exactly one message and one reply per finished job, in the order the jobs finished, and then perhaps
      the one message of the holder. What every job received answers its own requests, which are the caller's entries
      under the handle of the last successful handshake before it, and it returned what that reply says. */
  lemma EveryCallerGetsItsOwnReply(start: nat, acts: seq<Action>, k: nat)
    requires k < |Run(Start(start), acts).log|
    ensures var c := Run(Start(start), acts); var d := c.log[k];
            && 2 * k + 1 < |c.wire|
            && c.wire[2 * k] == Sent(Payload(d.job.CallBatch?, d.reqs)) && c.wire[2 * k + 1] == Received(d.reply)
            && d.reply.to == Ids(d.reqs) && Returns(d.job, d.reply.body, d.outcome)
            && exists h :: IsCurrent(c.log[..k], h) && IsMessage(Payload(d.job.CallBatch?, d.reqs), d.job, h)
  {
    var c := Run(Start(start), acts);
    RunKeeps(start, acts);
    TranscriptAt(c.log, k);
    var d, h := c.log[k], HandleAfter(c.log[..k]);
    assert Answered(d, h);
    OutcomeReturns(d.job, d.reply.body);
    HandleIsCurrent(c.log[..k]);
    CarriedIsMessage(d.reqs, d.job, h);
  }

  /** Sends at even places, replies at odd ones, each to the message just before it. */
  ghost predicate Alternates(wire: seq<Wire>) {
    && (forall i :: 0 <= i < |wire| ==> (wire[i].Sent? <==> i % 2 == 0))
    && (forall i :: 0 < i < |wire| && wire[i].Received? ==>
          wire[i - 1].Sent? && wire[i].reply.to == Ids(wire[i - 1].payload.reqs))
  }

  lemma AlternatesSend(wire: seq<Wire>, p: Payload)
    requires Alternates(wire) && |wire| % 2 == 0
    ensures Alternates(wire + [Sent(p)])
  {
  }

  lemma AlternatesReply(wire: seq<Wire>, p: Payload, r: Reply)
    requires Alternates(wire) && |wire| % 2 == 0 && r.to == Ids(p.reqs)
    ensures Alternates(wire + [Sent(p), Received(r)])
  {
  }

  lemma {:induction false} TranscriptAlternates(log: seq<Done>)
    requires forall k :: 0 <= k < |log| ==> log[k].reply.to == Ids(log[k].reqs)
    ensures Alternates(Transcript(log))
    decreases |log|
  {
    if log != [] {
      var before, d := log[..|log| - 1], log[|log| - 1];
      TranscriptAlternates(before);
      TranscriptLength(before);
      AlternatesReply(Transcript(before), Payload(d.job.CallBatch?, d.reqs), d.reply);
    }
  }

  lemma ConnAlternates(c: Conn, start: nat)
    requires Inv(c, start)
    ensures Alternates(c.wire)
  {
    forall k | 0 <= k < |c.log| ensures c.log[k].reply.to == Ids(c.log[k].reqs) {
      assert Answered(c.log[k], HandleAfter(c.log[..k]));
    }
    TranscriptAlternates(c.log);
    TranscriptLength(c.log);
    if c.holder.Some? && c.holder.value.sent {
      AlternatesSend(Transcript(c.log), PayloadOf(c.holder.value));
    } else {
      assert c.wire == Transcript(c.log);
    }
  }

  /** In every interleaving of any number of callers, the wire strictly alternates. */
  lemma WireAlternates(start: nat, acts: seq<Action>)
    ensures Alternates(Run(Start(start), acts).wire)
  {
    RunKeeps(start, acts);
    ConnAlternates(Run(Start(start), acts), start);
  }

  /** The requests on the wire, in the order they were sent. */
  function OnWire(wire: seq<Wire>): seq<Request> {
    if wire == [] then [] else
      OnWire(wire[..|wire| - 1]) + (if wire[|wire| - 1].Sent? then wire[|wire| - 1].payload.reqs else [])
  }

  lemma {:induction false} TranscriptRequests(log: seq<Done>)
    ensures OnWire(Transcript(log)) == AllRequests(log)
    decreases |log|
  {
    if log != [] {
      var d := log[|log| - 1];
      var t, s := Transcript(log[..|log| - 1]), Sent(Payload(d.job.CallBatch?, d.reqs));
      TranscriptRequests(log[..|log| - 1]);
      assert t + [s, Received(d.reply)] == (t + [s]) + [Received(d.reply)];
      OnWireGrows(t + [s], Received(d.reply));
      OnWireGrows(t, s);
    }
  }

  lemma OnWireGrows(wire: seq<Wire>, w: Wire)
    ensures OnWire(wire + [w]) == OnWire(wire) + (if w.Sent? then w.payload.reqs else [])
  {
    assert (wire + [w])[..|wire|] == wire;
  }

  lemma WireIsRising(c: Conn, start: nat)
    requires Inv(c, start)
    ensures Rising(OnWire(c.wire), start, c.counter)
  {
    TranscriptRequests(c.log);
    if c.holder.Some? && c.holder.value.sent {
      OnWireGrows(Transcript(c.log), Sent(PayloadOf(c.holder.value)));
    } else {
      assert c.wire == Transcript(c.log);
      RisingPrefix(AllRequests(c.log), Held(c), start, c.counter);
    }
  }

  /** Two requests have the same id exactly when a whole turn of the 64-bit counter lies between them. */
  lemma SameIdIff(r: Request, s: Request)
    ensures Id(r) == Id(s) <==> r.serial % TWO_64 == s.serial % TWO_64
  {
    if Id(r) == Id(s) {
      DecimalInjective(r.serial % TWO_64, s.serial % TWO_64);
    }
  }

  lemma FarApart(a: nat, b: nat)
    requires a < b < a + TWO_64
    ensures a % TWO_64 != b % TWO_64
  {
  }

  /** As long as the process has not drawn more than 2^64 ids, whoever drew them, no id is ever sent twice. */
  lemma IdsNeverRepeat(start: nat, acts: seq<Action>, i: nat, j: nat)
    requires Run(Start(start), acts).counter - start <= TWO_64
    requires i < j < |OnWire(Run(Start(start), acts).wire)|
    ensures var sent := OnWire(Run(Start(start), acts).wire); Id(sent[i]) != Id(sent[j])
  {
    var c := Run(Start(start), acts);
    RunKeeps(start, acts);
    WireIsRising(c, start);
    var r, s := OnWire(c.wire)[i], OnWire(c.wire)[j];
    SameIdIff(r, s);
    FarApart(r.serial, s.serial);
  }

  lemma RunGrows(c: Conn, acts: seq<Action>, a: Action)
    ensures Run(c, acts + [a]) == Step(Run(c, acts), a)
  {
    assert (acts + [a])[..|acts|] == acts;
  }

  function Repeat(a: Action, n: nat): seq<Action> {
    if n == 0 then [] else Repeat(a, n - 1) + [a]
  }

  lemma RunRepeat(c: Conn, acts: seq<Action>, a: Action, n: nat)
    ensures Run(c, acts + Repeat(a, 0)) == Run(c, acts)
    ensures n > 0 ==> Run(c, acts + Repeat(a, n)) == Step(Run(c, acts + Repeat(a, n - 1)), a)
  {
    assert acts + Repeat(a, 0) == acts;
    if n > 0 {
      assert acts + Repeat(a, n) == (acts + Repeat(a, n - 1)) + [a];
      RunGrows(c, acts + Repeat(a, n - 1), a);
    }
  }

  lemma {:induction false} Drawn(c: Conn, acts: seq<Action>, n: nat)
    ensures Run(c, acts + Repeat(Foreign, n)) == Run(c, acts).(counter := Run(c, acts).counter + n)
  {
    RunRepeat(c, acts, Foreign, n);
    if n > 0 {
      Drawn(c, acts, n - 1);
    }
  }

  lemma OneCall(c: Conn, caller: nat, e: Entry)
    requires c.holder.None?
    ensures var r := Request(c.counter + 1, e.method_, WithHandle(e.params, c.apiH)); var p := Payload(false, [r]);
            Step(Step(Step(c, Lock(caller, Call(e))), Build), Send)
            == c.(holder := Some(Holder(caller, Call(e), [r], true)), counter := c.counter + 1, inbox := c.inbox + [p],
                  wire := c.wire + [Sent(p)])
  {
    var r := Request(c.counter + 1, e.method_, WithHandle(e.params, c.apiH));
    assert [] + [r] == [r];
    assert Step(Step(c, Lock(caller, Call(e))), Build)
        == c.(holder := Some(Holder(caller, Call(e), [r], false)), counter := c.counter + 1);
  }

  /** A call that takes the mutex, builds its request and sends it. */
  lemma CallGoesOut(c: Conn, acts: seq<Action>, caller: nat, e: Entry)
    requires Run(c, acts).holder.None?
    ensures Run(c, acts + [Lock(caller, Call(e))] + [Build] + [Send])
         == Step(Step(Step(Run(c, acts), Lock(caller, Call(e))), Build), Send)
  {
    RunGrows(c, acts, Lock(caller, Call(e)));
    RunGrows(c, acts + [Lock(caller, Call(e))], Build);
    RunGrows(c, acts + [Lock(caller, Call(e))] + [Build], Send);
  }

  /** A first call, answered. */
  function Opening(e: Entry, body: Body): seq<Action> {
    [] + [Lock(0, Call(e))] + [Build] + [Send] + [Serve(body)] + [Receive]
  }

  lemma OpeningRuns(e: Entry, body: Body)
    ensures var c := Run(Start(0), Opening(e, body)); var r := Request(1, e.method_, WithHandle(e.params, ""));
            && c.holder.None? && c.counter == 1 && |c.wire| == 2 && c.wire[0] == Sent(Payload(false, [r]))
  {
    var sent := [] + [Lock(0, Call(e))] + [Build] + [Send];
    CallGoesOut(Start(0), [], 0, e);
    OneCall(Start(0), 0, e);
    RunGrows(Start(0), sent, Serve(body));
    RunGrows(Start(0), sent + [Serve(body)], Receive);
  }

  lemma SecondCall(c: Conn, e: Entry, first: Request)
    requires c.holder.None? && c.counter == TWO_64 && |c.wire| == 2
    requires first.serial == 1 && c.wire[0] == Sent(Payload(false, [first]))
    ensures var c' := Step(Step(Step(c, Lock(0, Call(e))), Build), Send);
            && c'.counter == TWO_64 + 1 && |c'.wire| == 3 && c'.wire[0] == c.wire[0] && c'.wire[2].Sent?
            && |c'.wire[2].payload.reqs| == 1 && Id(first) == Id(c'.wire[2].payload.reqs[0])
  {
    OneCall(c, 0, e);
    assert (TWO_64 + 1) % TWO_64 == 1;
  }

  /** The bound is exact: with 2^64 - 1 draws in between, two calls go out under the same id. */
  lemma IdRepeatsAfterWrap(e: Entry, body: Body) returns (acts: seq<Action>)
    ensures var c := Run(Start(0), acts);
            && c.counter == TWO_64 + 1 && |c.wire| == 3 && c.wire[0].Sent? && c.wire[2].Sent?
            && |c.wire[0].payload.reqs| == 1 && |c.wire[2].payload.reqs| == 1
            && Id(c.wire[0].payload.reqs[0]) == Id(c.wire[2].payload.reqs[0])
  {
    OpeningRuns(e, body);
    var wrapped := Opening(e, body) + Repeat(Foreign, TWO_64 - 1);
    Drawn(Start(0), Opening(e, body), TWO_64 - 1);
    acts := wrapped + [Lock(0, Call(e))] + [Build] + [Send];
    CallGoesOut(Start(0), wrapped, 0, e);
    SecondCall(Run(Start(0), wrapped), e, Request(1, e.method_, WithHandle(e.params, "")));
  }

  /** Once a handshake succeeded, the handle stays set. */
  lemma {:induction false} HandleStays(log: seq<Done>, m: nat)
    requires m < |log| && log[m].job.Handshake? && Outcome(log[m].job, log[m].reply.body).Ok?
    ensures HandleAfter(log) != ""
    decreases |log|
  {
    if m < |log| - 1 {
      HandleStays(log[..|log| - 1], m);
    }
  }

  /** The job whose message is the k-th on the wire: a finished one, or the holder's. */
  function JobAt(c: Conn, k: nat): Job
    requires k < |c.log| || c.holder.Some?
  {
    if k < |c.log| then c.log[k].job else c.holder.value.job
  }

  /** The k-th message of the wire, answered or not. */
  lemma MessageAt(c: Conn, start: nat, k: nat)
    requires Inv(c, start) && 2 * k < |c.wire|
    ensures c.wire[2 * k].Sent? && k <= |c.log| && (k == |c.log| ==> c.holder.Some?)
    ensures var reqs, entries := c.wire[2 * k].payload.reqs, Entries(JobAt(c, k));
            |reqs| == |entries| && Carries(reqs, entries, HandleAfter(c.log[..k]))
  {
    TranscriptLength(c.log);
    if k < |c.log| {
      TranscriptAt(c.log, k);
      assert Answered(c.log[k], HandleAfter(c.log[..k]));
    } else {
      assert c.log[..k] == c.log;
    }
  }

  /** The request is the entry with the handle set, and nothing else changed. */
  ghost predicate HandleSet(r: Request, e: Entry, h: string) {
    && h != "" && r.method_ == e.method_ && r.params.Some? && "api_h" in r.params.value
    && r.params.value["api_h"] == Str(h)
    && (forall key :: key in r.params.value && key != "api_h" ==>
          e.params.Some? && key in e.params.value && r.params.value[key] == e.params.value[key])
    && (e.params.Some? ==> forall key :: key in e.params.value ==> key in r.params.value)
  }

  /** Every request that goes out after the reply to a successful handshake, answered or not yet, carries the handle
      last negotiated, which is not empty, and otherwise just what its caller gave. */
  lemma HandleIsCarried(start: nat, acts: seq<Action>, m: nat, p: nat, i: nat)
    requires var c := Run(Start(start), acts);
             && m < |c.log| && c.log[m].job.Handshake? && c.log[m].outcome.Ok?
             && 2 * m + 1 < p < |c.wire| && c.wire[p].Sent? && i < |c.wire[p].payload.reqs|
    ensures var c, k := Run(Start(start), acts), p / 2;
            && k <= |c.log| && (k == |c.log| ==> c.holder.Some?) && i < |Entries(JobAt(c, k))|
            && HandleSet(c.wire[p].payload.reqs[i], Entries(JobAt(c, k))[i], HandleAfter(c.log[..k]))
  {
    RunKeeps(start, acts);
    RequestCarriesHandle(Run(Start(start), acts), start, m, p, i);
  }

  lemma RequestCarriesHandle(c: Conn, start: nat, m: nat, p: nat, i: nat)
    requires Inv(c, start) && m < |c.log| && c.log[m].job.Handshake? && c.log[m].outcome.Ok?
    requires 2 * m + 1 < p < |c.wire| && c.wire[p].Sent? && i < |c.wire[p].payload.reqs|
    ensures var k := p / 2;
            && k <= |c.log| && (k == |c.log| ==> c.holder.Some?) && i < |Entries(JobAt(c, k))|
            && HandleSet(c.wire[p].payload.reqs[i], Entries(JobAt(c, k))[i], HandleAfter(c.log[..k]))
  {
    assert p == 2 * (p / 2) by { ConnAlternates(c, start); }
    assert Answered(c.log[m], HandleAfter(c.log[..m]));
    MessageCarriesHandle(c, start, m, p / 2, i);
  }

  lemma MessageCarriesHandle(c: Conn, start: nat, m: nat, k: nat, i: nat)
    requires Inv(c, start) && 2 * k < |c.wire| && c.wire[2 * k].Sent? && i < |c.wire[2 * k].payload.reqs|
    requires m < |c.log| && m < k && c.log[m].job.Handshake? && Outcome(c.log[m].job, c.log[m].reply.body).Ok?
    ensures k <= |c.log| && (k == |c.log| ==> c.holder.Some?) && i < |Entries(JobAt(c, k))|
    ensures HandleSet(c.wire[2 * k].payload.reqs[i], Entries(JobAt(c, k))[i], HandleAfter(c.log[..k]))
  {
    MessageAt(c, start, k);
    HandleStays(c.log[..k], m);
    CarriedIsSet(c.wire[2 * k].payload.reqs, Entries(JobAt(c, k)), HandleAfter(c.log[..k]), i);
  }

  lemma CarriedIsSet(reqs: seq<Request>, entries: seq<Entry>, h: string, i: nat)
    requires Carries(reqs, entries, h) && h != "" && i < |reqs|
    ensures HandleSet(reqs[i], entries[i], h)
  {
  }

  // ----- what callers get and what the server sees, in terms of the wire alone

  /** What a caller must get for a reply. A call gets the result of a single response, or its error; a batch gets the
      responses as they came, errors among them; a handshake succeeds with a single result that holds a handle. */
  ghost predicate Returns(job: Job, body: Body, outcome: Result<seq<Response>, CallError>) {
    match job
    case CallBatch(_) =>
      && (body.Array? ==> outcome == Result.Ok(body.responses))
      && (body.Single? ==> outcome == Result.Ok([body.response]))
      && (body.Garbage? ==> outcome == Result.Err(BadReply))
    case Call(_) =>
      && (!body.Single? ==> outcome == Result.Err(BadReply))
      && (body.Single? && body.response.Failed? ==> outcome == Result.Err(RpcError(body.response.code)))
      && (body.Single? && body.response.Ok? ==> outcome == Result.Ok([body.response]))
    case Handshake(_, _, _) =>
      && (outcome.Ok? <==> exists h :: HoldsHandle(body, h) && h != "")
      && (outcome.Ok? ==> outcome.value == [body.response])
      && (body.Single? && body.response.Failed? ==> outcome == Result.Err(RpcError(body.response.code)))
      && (HoldsHandle(body, "") ==> outcome == Result.Err(NoHandle))
      && (body.Single? && body.response.Ok? && body.response.handle.None? ==> outcome == Result.Err(BadReply))
      && (!body.Single? ==> outcome == Result.Err(BadReply))
  }

  predicate HoldsHandle(body: Body, h: string) {
    body.Single? && body.response.Ok? && body.response.handle == Some(h)
  }

  lemma OutcomeReturns(job: Job, body: Body)
    ensures Returns(job, body, Outcome(job, body))
  {
    if job.Handshake? && body.Single? && body.response.Ok? && body.response.handle.Some? {
      assert HoldsHandle(body, body.response.handle.value);
    }
  }

  /** A request is what its caller gave, with the handle added if there is one. */
  ghost predicate IsRequest(r: Request, method_: string, params: Params, h: string) {
    if h == "" then r.method_ == method_ && r.params == params else HandleSet(r, Entry(method_, params), h)
  }

  /** The message of a job: a call and a handshake send one request on its own, a batch an array of its entries. */
  ghost predicate IsMessage(p: Payload, job: Job, h: string) {
    match job
    case Call(e) => !p.batch && |p.reqs| == 1 && IsRequest(p.reqs[0], e.method_, e.params, h)
    case CallBatch(es) =>
      && p.batch && |p.reqs| == |es|
      && forall i :: 0 <= i < |es| ==> IsRequest(p.reqs[i], es[i].method_, es[i].params, h)
    case Handshake(name, major, minor) =>
      && !p.batch && |p.reqs| == 1
      && IsRequest(p.reqs[0], "api_sync_v2",
                   Some(map["name" := Str(name), "major" := Num(major), "minor" := Num(minor)]), h)
  }

  /** Succeeded handshakes, as the wire shows them. */
  predicate Negotiated(d: Done, h: string) {
    d.job.Handshake? && HoldsHandle(d.reply.body, h) && h != ""
  }

  /** The handle of the last handshake that succeeded, or none. */
  ghost predicate IsCurrent(log: seq<Done>, h: string) {
    if h == "" then forall m, g :: 0 <= m < |log| ==> !Negotiated(log[m], g)
    else exists m :: LastNegotiated(log, m, h)
  }

  ghost predicate LastNegotiated(log: seq<Done>, m: int, h: string) {
    && 0 <= m < |log| && Negotiated(log[m], h)
    && forall n, g :: m < n < |log| ==> !Negotiated(log[n], g)
  }

  lemma {:induction false} HandleIsCurrent(log: seq<Done>)
    ensures IsCurrent(log, HandleAfter(log))
    decreases |log|
  {
    if log != [] {
      var before, last := log[..|log| - 1], log[|log| - 1];
      HandleIsCurrent(before);
      NewHandleIs(last, HandleAfter(before));
      CurrentNext(before, last, HandleAfter(before), HandleAfter(log));
      assert before + [last] == log;
    }
  }

  /** The handle changes exactly with a handshake that succeeds. */
  lemma NewHandleIs(d: Done, h: string)
    ensures var h' := NewHandle(d.job, d.reply.body, h); Negotiated(d, h') || (h' == h && forall g :: !Negotiated(d, g))
  {
  }

  lemma CurrentNext(log: seq<Done>, d: Done, h: string, h': string)
    requires IsCurrent(log, h) && (Negotiated(d, h') || (h' == h && forall g :: !Negotiated(d, g)))
    ensures IsCurrent(log + [d], h')
  {
    var next := log + [d];
    if Negotiated(d, h') {
      assert next[|log|] == d && LastNegotiated(next, |log|, h');
    } else if h != "" {
      var m :| LastNegotiated(log, m, h);
      assert LastNegotiated(next, m, h);
    }
  }

  lemma CarriedIsMessage(reqs: seq<Request>, job: Job, h: string)
    requires |reqs| == |Entries(job)| && Carries(reqs, Entries(job), h)
    ensures IsMessage(Payload(job.CallBatch?, reqs), job, h)
  {
    if h != "" {
      forall i: nat | i < |reqs| ensures HandleSet(reqs[i], Entries(job)[i], h) {
        CarriedIsSet(reqs, Entries(job), h, i);
      }
    }
  }

  /** In every run, the k-th message on the wire is that of the job that finished k-th, or of the one that holds the
      mutex, under the handle negotiated last before it. */
  lemma ServerSeesWhatCallersAsk(start: nat, acts: seq<Action>, k: nat)
    requires 2 * k < |Run(Start(start), acts).wire|
    ensures var c := Run(Start(start), acts);
            && c.wire[2 * k].Sent? && k <= |c.log| && (k == |c.log| ==> c.holder.Some?)
            && exists h :: IsCurrent(c.log[..k], h) && IsMessage(c.wire[2 * k].payload, JobAt(c, k), h)
  {
    var c := Run(Start(start), acts);
    RunKeeps(start, acts);
    MessageAt(c, start, k);
    MessageKind(c, start, k);
    HandleIsCurrent(c.log[..k]);
    CarriedIsMessage(c.wire[2 * k].payload.reqs, JobAt(c, k), HandleAfter(c.log[..k]));
  }

  lemma MessageKind(c: Conn, start: nat, k: nat)
    requires Inv(c, start) && 2 * k < |c.wire| && c.wire[2 * k].Sent? && k <= |c.log|
    requires k == |c.log| ==> c.holder.Some?
    ensures c.wire[2 * k].payload.batch == JobAt(c, k).CallBatch?
  {
    TranscriptLength(c.log);
    if k < |c.log| {
      TranscriptAt(c.log, k);
    }
  }

  // ----- the code

  /** A caller's params map. */
  class ParamMap {
    var entries: map<string, Val>

    constructor (entries: map<string, Val>)
      ensures this.entries == entries
    {
      this.entries := entries;
    }
  }

  function Contents(p: ParamMap?): Params
    reads p
  {
    if p == null then None else Some(p.entries)
  }

  datatype BatchCall = BatchCall(method_: string, params: ParamMap?)

  function EntryOf(b: BatchCall): Entry
    reads b.params
  {
    Entry(b.method_, Contents(b.params))
  }

  function EntriesOf(calls: seq<BatchCall>): seq<Entry>
    reads set b | b in calls :: b.params
  {
    seq(|calls|, i requires 0 <= i < |calls| reads set b | b in calls :: b.params => EntryOf(calls[i]))
  }

  /** What a caller asks for, with its own maps. */
  datatype Ask =
    | AskCall(call: BatchCall)
    | AskBatch(calls: seq<BatchCall>)
    | AskHandshake(name: string, major: int, minor: int)

  function CallsOf(ask: Ask): seq<BatchCall> {
    match ask
    case AskCall(b) => [b]
    case AskBatch(bs) => bs
    case AskHandshake(_, _, _) => []
  }

  function JobOf(ask: Ask): Job
    reads set b | b in CallsOf(ask) :: b.params
  {
    match ask
    case AskCall(b) => assert b in CallsOf(ask); Call(EntryOf(b))
    case AskBatch(bs) => CallBatch(EntriesOf(bs))
    case AskHandshake(name, major, minor) => Handshake(name, major, minor)
  }

  /** A copy with the handle set, or the caller's own map before the handshake. Nothing that exists is changed. */
  method WithAPIHandle(apiH: string, params: ParamMap?) returns (out: ParamMap?)
    ensures Contents(out) == WithHandle(Contents(params), apiH)
    ensures if apiH == "" then out == params else out != null && fresh(out)
  {
    if apiH == "" {
      return params;
    }
    var copy := new ParamMap(map[]);
    if params != null {
      var left := params.entries.Keys;
      while left != {}
        invariant left <= params.entries.Keys && params.entries == old(params.entries)
        invariant copy.entries == map k | k in params.entries && k !in left :: params.entries[k]
        decreases left
      {
        var k :| k in left;
        copy.entries := copy.entries[k := params.entries[k]];
        left := left - {k};
      }
      assert copy.entries == params.entries;
    }
    copy.entries := copy.entries["api_h" := Str(apiH)];
    out := copy;
  }

  /** The entries to build: the caller's own, or the handshake's literal map. */
  method Unpack(ask: Ask, ghost job: Job) returns (calls: seq<BatchCall>)
    requires job == JobOf(ask)
    ensures EntriesOf(calls) == Entries(job)
  {
    if ask.AskHandshake? {
      var args := new ParamMap(map["name" := Str(ask.name), "major" := Num(ask.major), "minor" := Num(ask.minor)]);
      return [BatchCall("api_sync_v2", args)];
    }
    return CallsOf(ask);
  }

  /** What one job does while it holds the mutex, if building its request number `bad` fails and the server answers
      `body`. */
  function Script(caller: nat, job: Job, bad: Option<nat>, body: Body): seq<Action> {
    var n := |Entries(job)|;
    if bad.Some? && bad.value < n
    then [Lock(caller, job)] + Repeat(Build, bad.value) + [BuildFails]
    else [Lock(caller, job)] + Repeat(Build, n) + [Send] + [Serve(body)] + [Receive]
  }

  function Builds(c: Conn, n: nat): Conn {
    if n == 0 then c else Step(Builds(c, n - 1), Build)
  }

  function Exchange(c: Conn, body: Body): Conn {
    Step(Step(Step(c, Send), Serve(body)), Receive)
  }

  /** The state a job leaves behind. */
  function Performed(c: Conn, caller: nat, job: Job, bad: Option<nat>, body: Body): Conn {
    var n, locked := |Entries(job)|, Step(c, Lock(caller, job));
    if bad.Some? && bad.value < n then Step(Builds(locked, bad.value), BuildFails)
    else Exchange(Builds(locked, n), body)
  }

  lemma {:induction false} BuildsRun(c: Conn, acts: seq<Action>, n: nat)
    ensures Run(c, acts + Repeat(Build, n)) == Builds(Run(c, acts), n)
  {
    RunRepeat(c, acts, Build, n);
    if n > 0 {
      BuildsRun(c, acts, n - 1);
    }
  }

  lemma LockedBuildsRun(c: Conn, lock: Action, n: nat)
    ensures Run(c, [lock] + Repeat(Build, n)) == Builds(Step(c, lock), n)
  {
    assert [] + [lock] == [lock];
    RunGrows(c, [], lock);
    BuildsRun(c, [lock], n);
  }

  lemma ExchangeRuns(c: Conn, acts: seq<Action>, body: Body)
    ensures Run(c, acts + [Send] + [Serve(body)] + [Receive]) == Exchange(Run(c, acts), body)
  {
    RunGrows(c, acts, Send);
    RunGrows(c, acts + [Send], Serve(body));
    RunGrows(c, acts + [Send] + [Serve(body)], Receive);
  }

  /** A job that holds the mutex from beginning to end is one of the interleavings. */
  lemma ScriptRuns(c: Conn, caller: nat, job: Job, bad: Option<nat>, body: Body)
    ensures Run(c, Script(caller, job, bad, body)) == Performed(c, caller, job, bad, body)
  {
    var n, lock := |Entries(job)|, Lock(caller, job);
    if bad.Some? && bad.value < n {
      RunGrows(c, [lock] + Repeat(Build, bad.value), BuildFails);
      LockedBuildsRun(c, lock, bad.value);
    } else {
      ExchangeRuns(c, [lock] + Repeat(Build, n), body);
      LockedBuildsRun(c, lock, n);
    }
  }

  /** Between building and sending, nothing is in flight. */
  lemma BuiltIsQuiet(c: Conn, start: nat, lock: Action, n: nat)
    requires Inv(c, start)
    ensures InFlight(Builds(Step(c, lock), n))
  {
    RunFromKeeps(c, start, [lock] + Repeat(Build, n));
    LockedBuildsRun(c, lock, n);
  }

  /** After any run, a job under the mutex is that run continued by its script. */
  lemma PerformedContinues(start: nat, acts: seq<Action>, caller: nat, job: Job, bad: Option<nat>, body: Body)
    ensures InFlight(Builds(Step(Run(Start(start), acts), Lock(caller, job)), |Entries(job)|))
    ensures Performed(Run(Start(start), acts), caller, job, bad, body)
         == Run(Start(start), acts + Script(caller, job, bad, body))
  {
    RunKeeps(start, acts);
    BuiltIsQuiet(Run(Start(start), acts), start, Lock(caller, job), |Entries(job)|);
    ScriptRuns(Run(Start(start), acts), caller, job, bad, body);
    RunAppend(Start(start), acts, Script(caller, job, bad, body));
  }

  lemma {:induction false} RunAppend(c: Conn, a: seq<Action>, b: seq<Action>)
    ensures Run(c, a + b) == Run(Run(c, a), b)
    decreases |b|
  {
    if b == [] {
      assert a + b == a;
    } else {
      var before, last := b[..|b| - 1], b[|b| - 1];
      RunAppend(c, a, before);
      RunAppendLast(c, a, before, last, a + b, b);
    }
  }

  lemma RunAppendLast(c: Conn, a: seq<Action>, before: seq<Action>, last: Action, ab: seq<Action>, b: seq<Action>)
    requires ab == (a + before) + [last] && b == before + [last] && Run(c, a + before) == Run(Run(c, a), before)
    ensures Run(c, ab) == Run(Run(c, a), b)
  {
    RunGrows(c, a + before, last);
    RunGrows(Run(c, a), before, last);
  }

  /** Message out, reply in. */
  lemma ExchangeIs(c: Conn, body: Body)
    requires InFlight(c) && c.holder.Some? && !c.holder.value.sent && !Building(c)
    ensures var h := c.holder.value; var reply := Reply(Ids(h.built), body);
            Exchange(c, body) == c.(holder := None, wire := c.wire + [Sent(PayloadOf(h))] + [Received(reply)],
                                    log := c.log + [Finished(h, reply)], apiH := NewHandle(h.job, body, c.apiH))
  {
    var h := c.holder.value;
    var sent := Step(c, Send);
    assert sent == c.(holder := Some(h.(sent := true)), inbox := [PayloadOf(h)], wire := c.wire + [Sent(PayloadOf(h))]);
    assert Step(sent, Serve(body)) == sent.(inbox := [], outbox := [Reply(Ids(h.built), body)]);
  }

  /** The connection object, with its socket. `first` is how many ids the process had drawn when it was made, and `acts`
      is all that happened since. */
  class Client {
    var holder: Option<Holder>
    var apiH: string
    var drawn: nat
    var inbox: seq<Payload>
    var outbox: seq<Reply>
    var wire: seq<Wire>
    var log: seq<Done>
    ghost const first: nat
    ghost var acts: seq<Action>

    function Now(): Conn
      reads this
    {
      Conn(holder, apiH, drawn, inbox, outbox, wire, log)
    }

    /** The object is in the state of one of the runs of the theorems. */
    ghost predicate Valid()
      reads this
    {
      Now() == Run(Start(first), acts)
    }

    constructor (drawn: nat)
      ensures Valid() && holder.None? && first == drawn && acts == []
    {
      holder, apiH, this.drawn, inbox, outbox, wire, log := None, "", drawn, [], [], [], [];
      first, acts := drawn, [];
    }

    /** Call, CallBatch and Handshake from taking the mutex to releasing it. `job` is what the caller's maps hold, and
        they still hold it afterwards. Every request built has drawn an id, the one that failed to build included. */
    method Perform(caller: nat, ask: Ask, job: Job, bad: Option<nat>, body: Body)
      returns (outcome: Result<seq<Response>, CallError>)
      requires Valid() && holder.None? && job == JobOf(ask)
      modifies this
      ensures Valid() && holder.None? && acts == old(acts) + Script(caller, job, bad, body)
      ensures if bad.Some? && bad.value < |Entries(job)| then outcome == Result.Err(BadParams)
              else Returns(job, body, outcome)
      ensures drawn == old(drawn) + if bad.Some? && bad.value < |Entries(job)| then bad.value + 1 else |Entries(job)|
      ensures JobOf(ask) == job
    {
      PerformedContinues(first, acts, caller, job, bad, body);
      OutcomeReturns(job, body);
      var calls := Unpack(ask, job);
      outcome := Hold(caller, job, calls, bad, body);
      acts := acts + Script(caller, job, bad, body);
    }

    /** The same for entries that are ready to build. */
    method Hold(caller: nat, job: Job, calls: seq<BatchCall>, bad: Option<nat>, body: Body)
      returns (outcome: Result<seq<Response>, CallError>)
      requires holder.None? && EntriesOf(calls) == Entries(job)
      requires InFlight(Builds(Step(Now(), Lock(caller, job)), |Entries(job)|))
      modifies `holder, `drawn, `wire, `log, `apiH
      ensures holder.None? && Now() == Performed(old(Now()), caller, job, bad, body)
      ensures drawn == old(drawn) + if bad.Some? && bad.value < |Entries(job)| then bad.value + 1 else |Entries(job)|
      ensures outcome == if bad.Some? && bad.value < |Entries(job)| then Result.Err(BadParams) else Outcome(job, body)
    {
      holder := Some(Holder(caller, job, [], false));
      var ok := BuildAll(calls, bad);
      if !ok {
        return Result.Err(BadParams);
      }
      outcome := RoundTrip(body);
    }

    /** The building loop, under the mutex: requests in order, until one fails to marshal. */
    method BuildAll(calls: seq<BatchCall>, bad: Option<nat>) returns (ok: bool)
      requires holder.Some? && holder.value.built == [] && !holder.value.sent
      requires EntriesOf(calls) == Entries(holder.value.job)
      modifies `holder, `drawn
      ensures !ok ==> holder.None?
      ensures ok == !(bad.Some? && bad.value < |calls|)
      ensures drawn == old(drawn) + if ok then |calls| else bad.value + 1
      ensures !ok ==> Now() == Step(Builds(old(Now()), bad.value), BuildFails)
      ensures ok ==> Now() == Builds(old(Now()), |calls|)
      ensures ok ==> holder.Some? && holder.value.job == old(holder).value.job && !holder.value.sent && !Building(Now())
    {
      ghost var entries := Entries(holder.value.job);
      for i := 0 to |calls|
        invariant holder.Some? && holder.value.job == old(holder).value.job && !holder.value.sent
        invariant |holder.value.built| == i && !(bad.Some? && bad.value < i) && drawn == old(drawn) + i
        invariant Now() == Builds(old(Now()), i)
      {
        assert EntriesOf(calls)[i] == EntryOf(calls[i]);
        ok := BuildOne(calls[i], bad == Some(i));
        if !ok { return; }
      }
      ok := true;
    }

    /** Builds the next request, or fails to after its id is drawn. */
    method BuildOne(call: BatchCall, failing: bool) returns (ok: bool)
      requires Building(Now()) && EntryOf(call) == Entries(holder.value.job)[|holder.value.built|]
      modifies `holder, `drawn
      ensures ok == !failing && Now() == Step(old(Now()), if failing then BuildFails else Build)
      ensures drawn == old(drawn) + 1
    {
      var p := WithAPIHandle(apiH, call.params);
      drawn := drawn + 1;
      if failing {
        holder := None;
        return false;
      }
      holder := Some(holder.value.(built := holder.value.built + [Request(drawn, call.method_, Contents(p))]));
      ok := true;
    }

    /** Sends what is built, receives the reply and acts on it. */
    method RoundTrip(body: Body) returns (outcome: Result<seq<Response>, CallError>)
      requires InFlight(Now()) && holder.Some? && !holder.value.sent && !Building(Now())
      modifies `holder, `wire, `log, `apiH
      ensures holder.None? && Now() == Exchange(old(Now()), body)
      ensures outcome == Outcome(old(holder).value.job, body) && Returns(old(holder).value.job, body, outcome)
    {
      OutcomeReturns(holder.value.job, body);
      ExchangeIs(Now(), body);
      var h := holder.value;
      var reply := Reply(Ids(h.built), body);
      wire := wire + [Sent(Payload(h.job.CallBatch?, h.built))];
      wire := wire + [Received(reply)];
      outcome := Outcome(h.job, reply.body);
      if h.job.Handshake? && outcome.Ok? {
        apiH := outcome.value[0].handle.value;
      }
      log := log + [Done(h.caller, h.job, h.built, reply, outcome)];
      holder := None;
    }
  }
}
