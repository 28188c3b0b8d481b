/** The streaming relay as a step machine: a producer that reads lines, a channel
    of four slots, and a consumer that writes to the client and may leave at any
    time. The channel is closed exactly when the producer has exited, and the stop
    signal is raised exactly when the consumer has returned. */
module StreamRelay {
  import opened LineReader
  import opened Options

  const SLOTS := 4

  /** What the environment fixes: the upstream body and how the callbacks read a line. */
  datatype Config = Config(upstream: Bytes, end: End, usageOf: Bytes -> Option<nat>, hasContent: Bytes -> bool)

  datatype Producer = Reading | Sending(item: Item) | Exited

  datatype Exit = ClientGone | IdleTimeout | WriteFailed | SawClosed | UpstreamEnded(end: End)

  datatype Consumer = Running | Returned(exit: Exit)

  datatype State = State(
    unread: Bytes, producer: Producer, channel: seq<Item>, consumer: Consumer, cancelled: bool,
    written: Bytes, chunks: seq<Bytes>, failed: Option<Bytes>, usage: Option<nat>, usageCalls: nat, contentSeen: bool,
        ttftCalls: nat)

  function Init(c: Config): State {
    State(c.upstream, Reading, [], Running, false, [], [], None, None, 0, false, 0)
  }

  datatype Action =
    | Read
    | ReadAborted(got: nat)   // the body was closed, or the request cancelled, under the producer
    | Send
    | StopProducer
    | Receive
    | ReceiveAndFail(wrote: nat)
    | CancelContext           // the client goes away
    | SeeCancelled
    | Timeout
    | SeeClosed
    | Drain

  predicate Enabled(s: State, a: Action) {
    match a
    case Read => s.producer.Reading?
    case ReadAborted(got) =>
      s.producer.Reading? && (s.consumer.Returned? || s.cancelled) && got <= |s.unread| && NEWLINE !in s.unread[..got]
    case Send => s.producer.Sending? && |s.channel| < SLOTS
    case StopProducer => s.producer.Sending? && s.consumer.Returned?
    case Receive => s.consumer.Running? && s.channel != []
    case ReceiveAndFail(wrote) =>
      s.consumer.Running? && s.channel != [] && 0 < |s.channel[0].line| && wrote <= |s.channel[0].line|
    case CancelContext => true
    case SeeCancelled => s.consumer.Running? && s.cancelled
    case Timeout => s.consumer.Running?
    case SeeClosed => s.consumer.Running? && s.channel == [] && s.producer.Exited?
    case Drain => s.consumer.Returned? && s.channel != []
  }

  /** The first content line triggers the time-to-first-token callback, before it is written. */
  function NoteContent(c: Config, s: State, line: Bytes): State {
    if !s.contentSeen && c.hasContent(line) then s.(contentSeen := true, ttftCalls := s.ttftCalls + 1) else s
  }

  function NoteUsage(c: Config, s: State, line: Bytes): State {
    if s.usage.None? && c.usageOf(line).Some? then s.(usage := c.usageOf(line), usageCalls := s.usageCalls + 1) else s
  }

  function Deliver(c: Config, s: State, line: Bytes): State {
    if line == [] then s
    else
      var t := NoteContent(c, s, line);
      var u := NoteUsage(c, t.(written := t.written + line), line);
      u.(chunks := u.chunks + [line])
  }

  function Apply(c: Config, s: State, a: Action): State
    requires Enabled(s, a)
  {
    match a
    case Read =>
      var item := NextItem(s.unread, c.end);
      s.(unread := s.unread[|item.line|..], producer := Sending(item))
    case ReadAborted(got) => s.(unread := s.unread[got..], producer := Sending(Last(s.unread[..got], Broken)))
    case Send =>
      s.(channel := s.channel + [s.producer.item], producer := if s.producer.item.Last? then Exited else Reading)
    case StopProducer => s.(producer := Exited)
    case Receive =>
      var item := s.channel[0];
      var t := Deliver(c, s.(channel := s.channel[1..]), item.line);
      if item.Last? then t.(consumer := Returned(UpstreamEnded(item.end))) else t
    case ReceiveAndFail(wrote) =>
      var line := s.channel[0].line;
      var t := NoteContent(c, s.(channel := s.channel[1..]), line);
      t.(written := t.written + line[..wrote], failed := Some(line), consumer := Returned(WriteFailed))
    case CancelContext => s.(cancelled := true)
    case SeeCancelled => s.(consumer := Returned(ClientGone))
    case Timeout => s.(consumer := Returned(IdleTimeout))
    case SeeClosed => s.(consumer := Returned(SawClosed))
    case Drain => s.(channel := s.channel[1..])
  }

  /** `run` is an interleaving of enabled steps from `s`. */
  predicate Possible(c: Config, s: State, run: seq<Action>)
    decreases |run|
  {
    run == [] || (Enabled(s, run[0]) && Possible(c, Apply(c, s, run[0]), run[1..]))
  }

  function Final(c: Config, s: State, run: seq<Action>): State
    requires Possible(c, s, run)
    decreases |run|
  {
    if run == [] then s else Final(c, Apply(c, s, run[0]), run[1..])
  }

  // ----- Invariant -----

  function InHand(p: Producer): Bytes { if p.Sending? then p.item.line else [] }

  function Concat(chunks: seq<Bytes>): Bytes {
    if chunks == [] then [] else Concat(chunks[..|chunks| - 1]) + chunks[|chunks| - 1]
  }

  /** The usage block of the first chunk that has one. */
  function FirstUsage(c: Config, chunks: seq<Bytes>): Option<nat> {
    if chunks == [] then None
    else
      var before := FirstUsage(c, chunks[..|chunks| - 1]);
      if before.Some? then before else c.usageOf(chunks[|chunks| - 1])
  }

  /** The end that is reported is upstream's own, with everything read, or a cancelled read. */
  predicate RightEnd(c: Config, s: State, end: End) { (end == c.end && s.unread == []) || (end.Broken? && s.cancelled) }

  /** Nothing is lost while the consumer runs, and the error travels last. */
  ghost predicate Conserved(c: Config, s: State) {
    && s.written + Flatten(s.channel) + InHand(s.producer) + s.unread == c.upstream
    && (forall i :: 0 <= i < |s.channel| ==>
          if s.producer.Exited? && i == |s.channel| - 1 then s.channel[i].Last? && RightEnd(c, s, s.channel[i].end)
          else s.channel[i].More?)
    && (s.producer.Exited? ==> s.channel != [])
    && (s.producer.Sending? && s.producer.item.Last? ==> RightEnd(c, s, s.producer.item.end))
  }

  /** When the upstream end is reported as `end`, the client holds everything, unless a cancelled read was reported. */
  predicate Complete(c: Config, s: State, end: End) {
    (end == c.end && s.written == c.upstream) || (end.Broken? && s.cancelled)
  }

  ghost predicate AnyContent(c: Config, chunks: seq<Bytes>) {
    exists i :: 0 <= i < |chunks| && c.hasContent(chunks[i])
  }

  /** The lines written to the client, and the one whose write failed if one did. */
  function Attempted(s: State): seq<Bytes> { if s.failed.Some? then s.chunks + [s.failed.value] else s.chunks }

  ghost predicate CallbacksRight(c: Config, s: State) {
    && s.usage == FirstUsage(c, s.chunks)
    && s.usageCalls == (if s.usage.Some? then 1 else 0)
    && s.ttftCalls == (if s.contentSeen then 1 else 0)
    && (s.contentSeen <==> AnyContent(c, Attempted(s)))
    && (s.failed.Some? <==> s.consumer == Returned(WriteFailed))
    && (if s.failed.Some? then Concat(s.chunks) <= s.written <= Concat(s.chunks) + s.failed.value
        else s.written == Concat(s.chunks))
  }

  lemma {:induction false} AnyContentSnoc(c: Config, chunks: seq<Bytes>, line: Bytes)
    ensures AnyContent(c, chunks + [line]) <==> AnyContent(c, chunks) || c.hasContent(line)
  {
    var longer := chunks + [line];
    if AnyContent(c, chunks) {
      var i :| 0 <= i < |chunks| && c.hasContent(chunks[i]);
      assert longer[i] == chunks[i];
    }
    assert longer[|chunks|] == line;
  }

  ghost predicate Inv(c: Config, s: State) {
    && |s.channel| <= SLOTS
    && s.written <= c.upstream
    && (s.consumer.Running? ==> Conserved(c, s))
    && s.consumer != Returned(SawClosed)
    && (s.consumer.Returned? && s.consumer.exit.UpstreamEnded? ==> Complete(c, s, s.consumer.exit.end))
    && CallbacksRight(c, s)
    && (s.producer.Sending? && s.producer.item.More? ==> s.producer.item.line != [])
  }

  lemma {:induction false} FlattenSnoc(items: seq<Item>, x: Item)
    ensures Flatten(items + [x]) == Flatten(items) + x.line
  {
    if items == [] {
      assert (items + [x])[1..] == [];
    } else {
      assert (items + [x])[1..] == items[1..] + [x];
      FlattenSnoc(items[1..], x);
    }
  }

  lemma {:induction false} DeliverFrame(c: Config, s: State, line: Bytes)
    ensures var t := Deliver(c, s, line);
            && t.written == s.written + line
            && t.channel == s.channel && t.producer == s.producer && t.unread == s.unread && t.consumer == s.consumer
            && t.cancelled == s.cancelled && t.failed == s.failed
  {
  }

  lemma {:induction false} ChunksSnoc(c: Config, chunks: seq<Bytes>, line: Bytes)
    ensures Concat(chunks + [line]) == Concat(chunks) + line
    ensures FirstUsage(c, chunks + [line]) ==
            if FirstUsage(c, chunks).Some? then FirstUsage(c, chunks) else c.usageOf(line)
  {
    var longer := chunks + [line];
    assert longer[..|longer| - 1] == chunks;
  }

  /** `t` is `s` with the first-token callback made for `line` where it is due. */
  predicate ContentNoted(c: Config, s: State, t: State, line: Bytes) {
    && (t.contentSeen <==> s.contentSeen || c.hasContent(line))
    && t.ttftCalls == s.ttftCalls + (if !s.contentSeen && c.hasContent(line) then 1 else 0)
  }

  predicate UsageNoted(c: Config, s: State, t: State, line: Bytes) {
    && t.usage == (if s.usage.Some? then s.usage else c.usageOf(line))
    && t.usageCalls == s.usageCalls + (if s.usage.None? && c.usageOf(line).Some? then 1 else 0)
  }

  lemma {:induction false} DeliverNotes(c: Config, s: State, line: Bytes)
    requires line != []
    ensures var t := Deliver(c, s, line);
            ContentNoted(c, s, t, line) && UsageNoted(c, s, t, line) && t.chunks == s.chunks + [line]
  {
  }

  lemma {:induction false} DeliveredKeepsCallbacks(c: Config, s: State, t: State, line: Bytes)
    requires CallbacksRight(c, s) && s.consumer.Running? && t.consumer == s.consumer && t.failed == s.failed
    requires ContentNoted(c, s, t, line) && UsageNoted(c, s, t, line)
    requires t.chunks == s.chunks + [line] && t.written == s.written + line
    ensures CallbacksRight(c, t)
  {
    AnyContentSnoc(c, s.chunks, line);
    ChunksSnoc(c, s.chunks, line);
  }

  lemma {:induction false} DeliverKeepsCallbacks(c: Config, s: State, line: Bytes)
    requires CallbacksRight(c, s) && s.consumer.Running?
    ensures CallbacksRight(c, Deliver(c, s, line))
  {
    if line != [] {
      DeliverFrame(c, s, line);
      DeliverNotes(c, s, line);
      DeliveredKeepsCallbacks(c, s, Deliver(c, s, line), line);
    }
  }

  lemma {:induction false} PickUpConserves(c: Config, s: State, t: State, item: Item)
    requires Conserved(c, s) && s.producer.Reading? && s.unread == item.line + t.unread
    requires t.written == s.written && t.channel == s.channel && t.producer == Sending(item) &&
        t.cancelled == s.cancelled
    requires item.Last? ==> RightEnd(c, t, item.end)
    ensures Conserved(c, t)
  {
    var front := s.written + Flatten(s.channel);
    assert front + [] + (item.line + t.unread) == front + item.line + t.unread;
  }

  lemma {:induction false} ReadKeeps(c: Config, s: State)
    requires Inv(c, s) && Enabled(s, Read)
    ensures Inv(c, Apply(c, s, Read))
  {
    var item, t := NextItem(s.unread, c.end), Apply(c, s, Read);
    assert s.unread == item.line + t.unread;
    if s.consumer.Running? { PickUpConserves(c, s, t, item); }
  }

  lemma {:induction false} AbortKeeps(c: Config, s: State, got: nat)
    requires Inv(c, s) && Enabled(s, ReadAborted(got))
    ensures Inv(c, Apply(c, s, ReadAborted(got)))
  {
    var item, t := Last(s.unread[..got], Broken), Apply(c, s, ReadAborted(got));
    assert s.unread == item.line + t.unread;
    if s.consumer.Running? { PickUpConserves(c, s, t, item); }
  }

  lemma {:induction false} SendKeeps(c: Config, s: State)
    requires Inv(c, s) && Enabled(s, Send)
    ensures Inv(c, Apply(c, s, Send))
  {
    var item, t := s.producer.item, Apply(c, s, Send);
    FlattenSnoc(s.channel, item);
    if s.consumer.Running? {
      assert s.written + (Flatten(s.channel) + item.line) + [] + s.unread == s.written + Flatten(s.channel) +
          item.line + s.unread;
      assert Conserved(c, t);
    }
  }

  lemma {:induction false} PopConserves(c: Config, s: State, t: State)
    requires Conserved(c, s) && s.channel != [] && t.written == s.written + s.channel[0].line
    requires t.channel == s.channel[1..] && t.producer == s.producer && t.unread == s.unread &&
        t.cancelled == s.cancelled
    ensures t.written <= c.upstream
    ensures if s.channel[0].Last? then Complete(c, t, s.channel[0].end) else Conserved(c, t)
  {
    var rest := Flatten(t.channel) + InHand(t.producer) + t.unread;
    assert c.upstream == t.written + rest;
    if s.channel[0].Last? {
      assert t.channel == [];
      if t.unread == [] { assert rest == []; }
    } else {
      assert t.written + Flatten(t.channel) + InHand(t.producer) + t.unread == c.upstream;
      forall i | 0 <= i < |t.channel| ensures t.channel[i] == s.channel[i + 1] {}
    }
  }

  lemma {:induction false} ReceiveKeeps(c: Config, s: State)
    requires Inv(c, s) && Enabled(s, Receive)
    ensures Inv(c, Apply(c, s, Receive))
  {
    var popped := s.(channel := s.channel[1..]);
    DeliverFrame(c, popped, s.channel[0].line);
    DeliverKeepsCallbacks(c, popped, s.channel[0].line);
    PopConserves(c, s, Deliver(c, popped, s.channel[0].line));
  }

  lemma {:induction false} FailedKeepsCallbacks(c: Config, s: State, t: State, line: Bytes, wrote: nat)
    requires CallbacksRight(c, s) && s.consumer.Running? && wrote <= |line|
    requires ContentNoted(c, s, t, line) && t.usage == s.usage && t.usageCalls == s.usageCalls
    requires t.chunks == s.chunks && t.written == s.written + line[..wrote]
    requires t.failed == Some(line) && t.consumer == Returned(WriteFailed)
    ensures CallbacksRight(c, t)
  {
    AnyContentSnoc(c, s.chunks, line);
    assert s.written + line == (s.written + line[..wrote]) + line[wrote..];
  }

  lemma {:induction false} PartialWriteIsPrefix(c: Config, s: State, wrote: nat)
    requires Conserved(c, s) && s.channel != [] && wrote <= |s.channel[0].line|
    ensures s.written + s.channel[0].line[..wrote] <= c.upstream
  {
    var line := s.channel[0].line;
    var rest := Flatten(s.channel[1..]) + InHand(s.producer) + s.unread;
    assert c.upstream == (s.written + line) + rest;
    assert line == line[..wrote] + line[wrote..];
    assert c.upstream == (s.written + line[..wrote]) + (line[wrote..] + rest);
  }

  lemma {:induction false} ReceiveAndFailKeeps(c: Config, s: State, wrote: nat)
    requires Inv(c, s) && Enabled(s, ReceiveAndFail(wrote))
    ensures Inv(c, Apply(c, s, ReceiveAndFail(wrote)))
  {
    PartialWriteIsPrefix(c, s, wrote);
    FailedKeepsCallbacks(c, s, Apply(c, s, ReceiveAndFail(wrote)), s.channel[0].line, wrote);
  }

  lemma {:induction false} StepKeeps(c: Config, s: State, a: Action)
    requires Inv(c, s) && Enabled(s, a)
    ensures Inv(c, Apply(c, s, a))
  {
    if a.Receive? {
      ReceiveKeeps(c, s);
    } else if a.ReceiveAndFail? {
      ReceiveAndFailKeeps(c, s, a.wrote);
    } else if a.Read? {
      ReadKeeps(c, s);
    } else if a.ReadAborted? {
      AbortKeeps(c, s, a.got);
    } else if a.Send? {
      SendKeeps(c, s);
    }
  }

  lemma {:induction false} RunKeeps(c: Config, s: State, run: seq<Action>)
    requires Inv(c, s) && Possible(c, s, run)
    ensures Inv(c, Final(c, s, run))
    decreases |run|
  {
    if run != [] {
      StepKeeps(c, s, run[0]);
      RunKeeps(c, Apply(c, s, run[0]), run[1..]);
    }
  }

  /** Passthrough, over every interleaving: the client holds a prefix of upstream whichever way the relay ends,
      nothing is lost or reordered while it runs, and at a clean end, or at any end of a request that was not
      cancelled, the client holds everything. The closed channel is never what ends the relay. */
  lemma {:induction false} RelayIsPassthrough(c: Config, run: seq<Action>)
    requires Possible(c, Init(c), run)
    ensures var s := Final(c, Init(c), run);
            && s.written <= c.upstream
            && |s.channel| <= SLOTS
            && (s.consumer.Running? ==> s.written + Flatten(s.channel) + InHand(s.producer) + s.unread == c.upstream)
            && (s.consumer == Returned(UpstreamEnded(Eof)) ==> s.written == c.upstream && c.end == Eof)
            && (s.consumer == Returned(UpstreamEnded(Broken)) && !s.cancelled ==>
                s.written == c.upstream && c.end == Broken)
            && s.consumer != Returned(SawClosed)
  {
    RunKeeps(c, Init(c), run);
  }

  /** Callbacks, over every interleaving: the usage callback fires once, for the first delivered
      chunk that carries usage; the first-token callback fires once; the captured chunks are what
      the client got unless a write failed. */
  lemma {:induction false} CallbacksFireOnce(c: Config, run: seq<Action>)
    requires Possible(c, Init(c), run)
    ensures var s := Final(c, Init(c), run);
            && s.usageCalls <= 1 && s.ttftCalls <= 1
            && (s.usageCalls == 1 <==> FirstUsage(c, s.chunks).Some?)
            && s.usage == FirstUsage(c, s.chunks)
            && (s.ttftCalls == 1 <==> AnyContent(c, Attempted(s)))
            && (s.failed.Some? <==> s.consumer == Returned(WriteFailed))
            && (if s.failed.Some? then Concat(s.chunks) <= s.written <= Concat(s.chunks) + s.failed.value
                else s.written == Concat(s.chunks))
  {
    RunKeeps(c, Init(c), run);
  }

  // ----- The producer always gets away -----

  predicate ProducerAction(a: Action) { a.Read? || a.ReadAborted? || a.Send? || a.StopProducer? }

  /** An upper bound on the steps the producer still takes. */
  function Remaining(s: State): nat {
    match s.producer
    case Exited => 0
    case Reading => 2 * |s.unread| + 2
    case Sending(item) => if item.Last? then 1 else 2 * |s.unread| + 3
  }

  function ProducerSteps(run: seq<Action>): nat {
    if run == [] then 0 else (if ProducerAction(run[0]) then 1 else 0) + ProducerSteps(run[1..])
  }

  lemma {:induction false} StepUsesUp(c: Config, s: State, a: Action)
    requires (s.producer.Sending? && s.producer.item.More? ==> s.producer.item.line != []) && Enabled(s, a)
    ensures Remaining(Apply(c, s, a)) + (if ProducerAction(a) then 1 else 0) <= Remaining(s)
  {
    if a.Read? {
      var item := NextItem(s.unread, c.end);
      assert Apply(c, s, a).unread == s.unread[|item.line|..] && (item.More? ==> item.line != []);
    } else if !ProducerAction(a) {
      assert Apply(c, s, a).producer == s.producer && Apply(c, s, a).unread == s.unread;
    }
  }

  lemma {:induction false} ProducerBounded(c: Config, s: State, run: seq<Action>)
    requires Inv(c, s) && Possible(c, s, run)
    ensures ProducerSteps(run) + Remaining(Final(c, s, run)) <= Remaining(s)
    decreases |run|
  {
    if run != [] {
      StepKeeps(c, s, run[0]);
      StepUsesUp(c, s, run[0]);
      ProducerBounded(c, Apply(c, s, run[0]), run[1..]);
    }
  }

  /** No goroutine leak: in every interleaving the producer takes at most 2n+2 steps for n upstream
      bytes, and once the consumer is gone it is never blocked, however full the channel. */
  lemma {:induction false} ProducerNeverWedges(c: Config, run: seq<Action>)
    requires Possible(c, Init(c), run)
    ensures ProducerSteps(run) <= 2 * |c.upstream| + 2
    ensures var s := Final(c, Init(c), run);
            s.consumer.Returned? && !s.producer.Exited? ==> exists a :: ProducerAction(a) && Enabled(s, a)
  {
    ProducerBounded(c, Init(c), run);
    var s := Final(c, Init(c), run);
    if s.consumer.Returned? && !s.producer.Exited? {
      var a := if s.producer.Reading? then Read else StopProducer;
      assert ProducerAction(a) && Enabled(s, a);
    }
  }

  // ----- The relay delivers -----

  /** A step of an undisturbed relay. */
  predicate Undisturbed(a: Action) { a.Read? || a.Send? || a.Receive? }

  predicate AllUndisturbed(run: seq<Action>) { forall i :: 0 <= i < |run| ==> Undisturbed(run[i]) }

  /** What the relay does next: it receives what is queued, and else the producer moves. */
  function NextStep(s: State): Action {
    if s.channel != [] then Receive else if s.producer.Reading? then Read else Send
  }

  lemma {:induction false} NextStepMoves(c: Config, s: State)
    requires Inv(c, s) && s.consumer.Running? && !s.cancelled
    ensures Enabled(s, NextStep(s)) && Undisturbed(NextStep(s))
    ensures var t := Apply(c, s, NextStep(s));
            && Inv(c, t) && !t.cancelled
            && 2 * Remaining(t) + |t.channel| < 2 * Remaining(s) + |s.channel|
            && (t.consumer.Returned? ==> t.consumer == Returned(UpstreamEnded(c.end)) && t.written == c.upstream)
  {
    var a := NextStep(s);
    assert Enabled(s, a);
    StepKeeps(c, s, a);
    StepUsesUp(c, s, a);
    if a.Receive? {
      var popped := s.(channel := s.channel[1..]);
      DeliverFrame(c, popped, s.channel[0].line);
      PopConserves(c, s, Deliver(c, popped, s.channel[0].line));
    }
  }

  lemma {:induction false} CanFinish(c: Config, s: State) returns (more: seq<Action>)
    requires Inv(c, s) && s.consumer.Running? && !s.cancelled
    ensures Possible(c, s, more) && AllUndisturbed(more)
    ensures var t := Final(c, s, more); t.consumer == Returned(UpstreamEnded(c.end)) && t.written == c.upstream
    decreases 2 * Remaining(s) + |s.channel|
  {
    var a := NextStep(s);
    NextStepMoves(c, s);
    var t := Apply(c, s, a);
    var rest: seq<Action> := [];
    if t.consumer.Running? { rest := CanFinish(c, t); }
    more := [a] + rest;
    assert more[0] == a && more[1..] == rest;
  }

  lemma {:induction false} StaysUncancelled(c: Config, s: State, run: seq<Action>)
    requires Possible(c, s, run) && AllUndisturbed(run)
    ensures Final(c, s, run).cancelled == s.cancelled
    decreases |run|
  {
    if run != [] {
      if run[0].Receive? { DeliverFrame(c, s.(channel := s.channel[1..]), s.channel[0].line); }
      forall i | 0 <= i < |run[1..]| ensures run[1..][i] == run[i + 1] {}
      StaysUncancelled(c, Apply(c, s, run[0]), run[1..]);
    }
  }

  /** Progress: from wherever a run has got with the consumer running and the client there, reading, sending and
      receiving alone bring the relay to upstream's own end with every upstream byte written, and nothing cancelled. */
  lemma {:induction false} RelayCanFinish(c: Config, run: seq<Action>) returns (more: seq<Action>)
    requires Possible(c, Init(c), run)
    requires var s := Final(c, Init(c), run); s.consumer.Running? && !s.cancelled
    ensures var s := Final(c, Init(c), run);
            && Possible(c, s, more) && AllUndisturbed(more)
            && var t := Final(c, s, more);
            t.consumer == Returned(UpstreamEnded(c.end)) && t.written == c.upstream && !t.cancelled
  {
    RunKeeps(c, Init(c), run);
    more := CanFinish(c, Final(c, Init(c), run));
    StaysUncancelled(c, Final(c, Init(c), run), more);
  }

  /** No queued item waits for another, the producer waits only for one of four slots, and while the relay runs the
      client's leaving, a silence and a failed write can each end it. */
  ghost predicate Unblocked(s: State) {
    && Enabled(s, CancelContext) && (s.producer.Reading? ==> Enabled(s, Read))
    && (s.producer.Reading? && (s.cancelled || s.consumer.Returned?) ==>
          forall got: nat :: Enabled(s, ReadAborted(got)) <==> got <= |s.unread| && NEWLINE !in s.unread[..got])
    && (s.producer.Sending? ==> (Enabled(s, Send) <==> |s.channel| != 4))
    && (s.channel != [] ==> Enabled(s, if s.consumer.Running? then Receive else Drain))
    && (s.consumer.Running? ==> Enabled(s, Timeout) && (Enabled(s, SeeCancelled) <==> s.cancelled))
    && (s.consumer.Running? && s.channel != [] ==>
          forall wrote: nat :: Enabled(s, ReceiveAndFail(wrote)) <==>
              s.channel[0].line != [] && wrote <= |s.channel[0].line|)
  }

  lemma {:induction false} RelayUnblocked(c: Config, run: seq<Action>)
    requires Possible(c, Init(c), run)
    ensures Unblocked(Final(c, Init(c), run))
  {
    RunKeeps(c, Init(c), run);
    RoomUnblocks(Final(c, Init(c), run));
  }

  lemma {:induction false} RoomUnblocks(s: State)
    requires |s.channel| <= 4
    ensures Unblocked(s)
  {
  }
}
