/**
 src/midi.hpp: turning a stream of bytes into calls of an event handler. The specification is an automaton that
 takes one byte at a time; the dispatcher, which looks ahead in its buffer, is proved to do the same.
 */
module MidiDispatcher {
  import opened Midi
  import opened Sequences

  /** The calls that an event handler gets. */
  datatype HandlerCall =
    | NoteOff(channel: Byte, note: Byte, velocity: Byte)
    | NoteOn(channel: Byte, note: Byte, velocity: Byte)
    | Aftertouch(channel: Byte, note: Byte, pressure: Byte)
    | ControlChange(channel: Byte, controller: Byte, newValue: Byte)
    | ChannelMode(channel: Byte, message: Byte, data: Byte)
    | ProgramChange(channel: Byte, newProgram: Byte)
    | ChannelPressure(channel: Byte, pressure: Byte)
    | PitchWheelChange(channel: Byte, position: nat)

  predicate IsStatus(b: Byte) {
    b >= 0x80
  }

  function MessageType(status: Byte): Byte {
    status - status % 16
  }

  function ChannelIn(status: Byte): Byte {
    status % 16
  }

  /** How many data bytes a message of this status has; zero for system messages and when there is no status yet. */
  function DataBytes(status: Byte): nat {
    if status < 0x80 || status >= 0xf0 then 0
    else if MessageType(status) == PROGRAM_CHANGE || MessageType(status) == CHANNEL_PRESSURE then 1
    else 2
  }

  function ShortCall(status: Byte, data: Byte): HandlerCall {
    if MessageType(status) == PROGRAM_CHANGE then ProgramChange(ChannelIn(status), data)
    else ChannelPressure(ChannelIn(status), data)
  }

  function LongCall(status: Byte, d1: Byte, d2: Byte): HandlerCall {
    var channel, kind := ChannelIn(status), MessageType(status);
    if kind == NOTE_OFF then NoteOff(channel, d1, d2)
    else if kind == NOTE_ON then if d2 == 0 then NoteOff(channel, d1, 64) else NoteOn(channel, d1, d2)
    else if kind == AFTERTOUCH then Aftertouch(channel, d1, d2)
    else if kind == CONTROL_CHANGE then
      if d1 < CONTROL_CHANGE_ALL_SOUND_OFF then ControlChange(channel, d1, d2) else ChannelMode(channel, d1, d2)
    else PitchWheelChange(channel, d2 * 128 + d1)
  }

  // ---- The automaton ----

  /** The running status, and the first data byte of a message that waits for its second one. */
  datatype Wire = Wire(running: Byte, first: Option<Byte>)

  datatype Read = Read(wire: Wire, calls: seq<HandlerCall>)

  function Feed(w: Wire, b: Byte): Read {
    if IsStatus(b) then Read(Wire(b, None), [])
    else if DataBytes(w.running) == 1 then Read(Wire(w.running, None), [ShortCall(w.running, b)])
    else if DataBytes(w.running) == 2 then
      match w.first
      case None => Read(Wire(w.running, Some(b)), [])
      case Some(a) => Read(Wire(w.running, None), [LongCall(w.running, a, b)])
    else Read(Wire(w.running, None), [])
  }

  function FeedAll(w: Wire, bytes: seq<Byte>): Read
    decreases |bytes|
  {
    if bytes == [] then Read(w, [])
    else
      var one := Feed(w, bytes[0]);
      var rest := FeedAll(one.wire, bytes[1..]);
      Read(rest.wire, one.calls + rest.calls)
  }

  lemma {:induction false} FeedAllConcat(w: Wire, a: seq<Byte>, b: seq<Byte>)
    ensures var left := FeedAll(w, a); var right := FeedAll(left.wire, b);
      FeedAll(w, a + b) == Read(right.wire, left.calls + right.calls)
    decreases |a|
  {
    if a == [] {
      assert a + b == b;
    } else {
      assert (a + b)[1..] == a[1..] + b;
      FeedAllConcat(Feed(w, a[0]).wire, a[1..], b);
    }
  }

  /** What a call of `dispatch_events` on a handler with this running status amounts to. */
  function Dispatch(running: Byte, bytes: seq<Byte>): Read {
    FeedAll(Wire(running, None), bytes)
  }

  // ---- The dispatcher ----

  class EventHandler {
    var runningStatus: Byte
    var calls: seq<HandlerCall>  // what the overridden methods have been called with

    constructor ()
      ensures runningStatus == 0 && calls == []
    {
      runningStatus, calls := 0, [];
    }
  }

  method ParseDataByte(buffer: seq<Byte>, nextByte: nat) returns (ok: bool, byte: Byte, next: nat)
    requires nextByte <= |buffer|
    ensures ok <==> nextByte < |buffer| && !IsStatus(buffer[nextByte])
    ensures ok ==> byte == buffer[nextByte] && next == nextByte + 1
    ensures !ok ==> next == nextByte
  {
    if nextByte >= |buffer| || IsStatus(buffer[nextByte]) {
      return false, 0, nextByte;
    }
    return true, buffer[nextByte], nextByte + 1;
  }

  method SkipRemainingDataBytes(buffer: seq<Byte>, nextByte: nat) returns (next: nat)
    requires nextByte <= |buffer|
    ensures nextByte <= next <= |buffer|
    ensures forall i :: nextByte <= i < next ==> !IsStatus(buffer[i])
    ensures next < |buffer| ==> IsStatus(buffer[next])
  {
    next := nextByte;
    while next < |buffer| && !IsStatus(buffer[next])
      invariant nextByte <= next <= |buffer|
      invariant forall i :: nextByte <= i < next ==> !IsStatus(buffer[i])
    {
      next := next + 1;
    }
  }

  /** A message cut short by the end of the buffer or by a status byte; what has been read of it is lost. */
  ghost predicate CutShort(read: Read, buffer: seq<Byte>, processed: nat) {
    read.wire.first.Some? && processed <= |buffer| && (processed < |buffer| ==> IsStatus(buffer[processed]))
  }

  /** One message, or as many data bytes as cannot belong to any. */
  method DispatchEvent(handler: EventHandler, buffer: seq<Byte>) returns (processed: nat)
    modifies handler
    ensures buffer != [] ==> 1 <= processed <= |buffer|
    ensures processed <= |buffer| && |handler.calls| <= |old(handler.calls)| + 1
    ensures var read := Dispatch(old(handler.runningStatus), buffer[..processed]);
      && handler.runningStatus == read.wire.running && handler.calls == old(handler.calls) + read.calls
      && (read.wire.first == None || CutShort(read, buffer, processed))
  {
    if buffer == [] {
      return 0;
    }
    hide DataBytes, ShortCall, LongCall, Feed, FeedAll;
    StartOfMessage(handler.runningStatus, buffer);
    var nextByte := 0;
    var status := buffer[nextByte];
    if IsStatus(status) {
      nextByte := nextByte + 1;
      handler.runningStatus := status;
    } else {
      status := handler.runningStatus;
    }
    ghost var wire := Wire(status, None);
    if DataBytes(status) == 0 {
      processed := SkipRemainingDataBytes(buffer, nextByte);
      SkippedBytes(wire, buffer[nextByte..processed]);
      return;
    }
    var ok, d1, d2;
    ok, d1, processed := ParseDataByte(buffer, nextByte);
    if !ok {
      OneByte(wire, 0);
      return;
    }
    OneByte(wire, d1);
    assert buffer[nextByte..processed] == [d1];
    if DataBytes(status) == 1 {
      handler.calls := handler.calls + [ShortCall(status, d1)];
      return;
    }
    ok, d2, processed := ParseDataByte(buffer, processed);
    if ok {
      TwoBytes(wire, d1, d2);
      assert buffer[nextByte..processed] == [d1, d2];
      handler.calls := handler.calls + [LongCall(status, d1, d2)];
    }
  }

  /** A leading status byte only changes the running status. */
  lemma StartOfMessage(running: Byte, buffer: seq<Byte>)
    requires buffer != []
    ensures forall k :: 1 <= k <= |buffer| && IsStatus(buffer[0]) ==>
      Dispatch(running, buffer[..k]) == FeedAll(Wire(buffer[0], None), buffer[1..k])
    ensures forall k :: 0 <= k <= |buffer| ==>
      Dispatch(running, buffer[..k]) == FeedAll(Wire(running, None), buffer[0..k])
  {
    forall k | 1 <= k <= |buffer| && IsStatus(buffer[0])
      ensures Dispatch(running, buffer[..k]) == FeedAll(Wire(buffer[0], None), buffer[1..k])
    {
      assert buffer[..k][1..] == buffer[1..k];
    }
    assert forall k :: 0 <= k <= |buffer| ==> buffer[..k] == buffer[0..k];
  }

  lemma {:induction false} SkippedBytes(w: Wire, bytes: seq<Byte>)
    requires w.first == None && DataBytes(w.running) == 0 && forall b :: b in bytes ==> !IsStatus(b)
    ensures FeedAll(w, bytes) == Read(w, [])
    decreases |bytes|
  {
    if bytes != [] {
      assert bytes[0] in bytes;
      SkippedBytes(w, bytes[1..]);
    }
  }

  lemma OneByte(w: Wire, b: Byte)
    requires w.first == None && DataBytes(w.running) > 0 && !IsStatus(b)
    ensures FeedAll(w, []) == Read(w, [])
    ensures FeedAll(w, [b]) == if DataBytes(w.running) == 1 then Read(w, [ShortCall(w.running, b)])
                               else Read(Wire(w.running, Some(b)), [])
  {
    assert [b][1..] == [];
  }

  lemma TwoBytes(w: Wire, a: Byte, b: Byte)
    requires w.first == None && DataBytes(w.running) == 2 && !IsStatus(a) && !IsStatus(b)
    ensures FeedAll(w, [a, b]) == Read(w, [LongCall(w.running, a, b)])
  {
    var half := Wire(w.running, Some(a));
    assert [a, b][1..] == [b] && [b][1..] == [];
    assert Feed(w, a) == Read(half, []) && FeedAll(half, [b]) == Read(w, [LongCall(w.running, a, b)] + []);
  }

  /** A status byte makes the automaton forget what it was waiting for. */
  lemma StatusForgets(w: Wire, bytes: seq<Byte>)
    requires bytes == [] || IsStatus(bytes[0]) || w.first == None
    ensures FeedAll(w, bytes).calls == Dispatch(w.running, bytes).calls
    ensures FeedAll(w, bytes).wire.running == Dispatch(w.running, bytes).wire.running
    ensures bytes != [] ==> FeedAll(w, bytes) == Dispatch(w.running, bytes)
  {
  }

  /** The dispatcher handles its whole buffer, and calls the handler just as the automaton would. */
  method DispatchEvents(handler: EventHandler, buffer: seq<Byte>) returns (processed: nat)
    modifies handler
    ensures processed == |buffer|
    ensures var read := Dispatch(old(handler.runningStatus), buffer);
      handler.runningStatus == read.wire.running && handler.calls == old(handler.calls) + read.calls
  {
    hide Feed, FeedAll;
    processed := 0;
    ghost var start := Wire(handler.runningStatus, None);
    ghost var read := Read(start, []);
    NothingFed(start);
    while processed != |buffer|
      invariant processed <= |buffer| && read == FeedAll(start, buffer[..processed])
      invariant handler.runningStatus == read.wire.running && handler.calls == old(handler.calls) + read.calls
      invariant read.wire.first == None || CutShort(read, buffer, processed)
      decreases |buffer| - processed
    {
      ghost var before := read;
      var rest := buffer[processed..];
      var n := DispatchEvent(handler, rest);
      assert buffer[..processed] + rest[..n] == buffer[..processed + n];
      FeedAllConcat(start, buffer[..processed], rest[..n]);
      StatusForgets(before.wire, rest[..n]);
      read := FeedAll(start, buffer[..processed + n]);
      processed := processed + n;
    }
    assert buffer[..processed] == buffer;
  }

  lemma NothingFed(w: Wire)
    ensures FeedAll(w, []) == Read(w, [])
  {
  }

  // ---- Compositionality ----

  /** The buffer ends after the first data byte of a message with two. */
  predicate EndsInMessage(running: Byte, bytes: seq<Byte>) {
    Dispatch(running, bytes).wire.first.Some?
  }

  /** Dispatching `a` and then `b` comes to the same as dispatching both at once. */
  predicate Splits(running: Byte, a: seq<Byte>, b: seq<Byte>) {
    var left := Dispatch(running, a);
    var right := Dispatch(left.wire.running, b);
    var whole := Dispatch(running, a + b);
    whole.calls == left.calls + right.calls && whole.wire.running == right.wire.running
  }

  lemma SplittingIsSafe(running: Byte, a: seq<Byte>, b: seq<Byte>)
    requires b == [] || IsStatus(b[0]) || !EndsInMessage(running, a)
    ensures Splits(running, a, b)
  {
    FeedAllConcat(Wire(running, None), a, b);
    StatusForgets(Dispatch(running, a).wire, b);
  }

  /** A stream can be cut here, whatever follows, if and only if the cut is not within a message. */
  lemma SafeCuts(running: Byte, a: seq<Byte>)
    ensures (forall b :: Splits(running, a, b)) <==> !EndsInMessage(running, a)
  {
    if EndsInMessage(running, a) {
      var wire := Dispatch(running, a).wire;
      FeedAllConcat(Wire(running, None), a, [0]);
      WaitingMeansLong(Wire(running, None), a);
      OneByte(Wire(wire.running, None), 0);
      assert !Splits(running, a, [0]);
    } else {
      forall b
        ensures Splits(running, a, b)
      {
        SplittingIsSafe(running, a, b);
      }
    }
  }

  lemma {:induction false} WaitingMeansLong(w: Wire, bytes: seq<Byte>)
    requires w.first.Some? ==> DataBytes(w.running) == 2
    ensures var r := FeedAll(w, bytes).wire; r.first.Some? ==> DataBytes(r.running) == 2
    decreases |bytes|
  {
    if bytes != [] {
      WaitingMeansLong(Feed(w, bytes[0]).wire, bytes[1..]);
    }
  }

  // ---- Printing and reading back ----

  datatype Message = Message(status: Byte, d1: Byte, d2: Byte) {
    /** A channel message; the second data byte of a short one is not sent. */
    predicate Valid() {
      DataBytes(status) > 0 && d1 < 0x80 && d2 < 0x80 && (DataBytes(status) == 1 ==> d2 == 0)
    }

    function Data(): seq<Byte> {
      if DataBytes(status) == 1 then [d1] else [d1, d2]
    }

    function Call(): HandlerCall {
      if DataBytes(status) == 1 then ShortCall(status, d1) else LongCall(status, d1, d2)
    }
  }

  ghost predicate AllValid(messages: seq<Message>) {
    forall m :: m in messages ==> m.Valid()
  }

  /** The messages as bytes; where `omit` allows it, a status byte that repeats the running status is left out. */
  function Print(messages: seq<Message>, omit: seq<bool>, running: Byte): seq<Byte>
    requires |omit| == |messages|
  {
    if messages == [] then []
    else
      var m := messages[0];
      (if omit[0] && m.status == running then [] else [m.status]) + m.Data() + Print(messages[1..], omit[1..], m.status)
  }

  function Calls(messages: seq<Message>): (calls: seq<HandlerCall>)
    ensures |calls| == |messages| && forall i :: 0 <= i < |calls| ==> calls[i] == messages[i].Call()
  {
    seq(|messages|, i requires 0 <= i < |messages| => messages[i].Call())
  }

  lemma OneMessage(m: Message, omitted: bool, running: Byte)
    requires m.Valid() && (omitted ==> m.status == running)
    ensures FeedAll(Wire(running, None), (if omitted then [] else [m.status]) + m.Data())
         == Read(Wire(m.status, None), [m.Call()])
  {
    if DataBytes(m.status) == 1 {
      OneByte(Wire(m.status, None), m.d1);
    } else {
      TwoBytes(Wire(m.status, None), m.d1, m.d2);
    }
    if omitted {
      assert [] + m.Data() == m.Data();
    } else {
      assert ([m.status] + m.Data())[1..] == m.Data();
    }
  }

  /** Reading back a printed stream gives one call per message, whichever repeated status bytes were left out. */
  lemma {:induction false} PrintedMessagesAreDispatched(messages: seq<Message>, omit: seq<bool>, running: Byte)
    requires |omit| == |messages| && AllValid(messages)
    ensures var read := Dispatch(running, Print(messages, omit, running));
      && read.calls == Calls(messages)
      && read.wire == Wire(if messages == [] then running else messages[|messages| - 1].status, None)
    decreases |messages|
  {
    hide Feed, FeedAll, Message.Call, Message.Data, Message.Valid;
    if messages == [] {
      NothingFed(Wire(running, None));
    } else {
      var m, omitted := messages[0], omit[0] && messages[0].status == running;
      assert m in messages && forall n :: n in messages[1..] ==> n in messages;
      var start := (if omitted then [] else [m.status]) + m.Data();
      var rest := Print(messages[1..], omit[1..], m.status);
      OneMessage(m, omitted, running);
      FeedAllConcat(Wire(running, None), start, rest);
      PrintedMessagesAreDispatched(messages[1..], omit[1..], m.status);
      assert Calls(messages) == [m.Call()] + Calls(messages[1..]);
    }
  }

  /** The message that makes a handler call, as src/proxy.cpp:773-776 splits a wheel position. */
  function Encode(call: HandlerCall): (int, int, int) {
    match call
    case NoteOff(c, n, v) => (NOTE_OFF + c, n, v)
    case NoteOn(c, n, v) => (NOTE_ON + c, n, v)
    case Aftertouch(c, n, p) => (AFTERTOUCH + c, n, p)
    case ControlChange(c, n, v) => (CONTROL_CHANGE + c, n, v)
    case ChannelMode(c, n, v) => (CONTROL_CHANGE + c, n, v)
    case ProgramChange(c, n) => (PROGRAM_CHANGE + c, n, 0)
    case ChannelPressure(c, p) => (CHANNEL_PRESSURE + c, p, 0)
    case PitchWheelChange(c, p) => (PITCH_BEND_CHANGE + c, p % 128, p / 128)
  }

  /** A message comes back from its call, except that a note-on without velocity has become a note-off. */
  lemma CallsDetermineMessages(m: Message)
    requires m.Valid()
    ensures Encode(m.Call())
      == if MessageType(m.status) == NOTE_ON && m.d2 == 0 then (NOTE_OFF + ChannelIn(m.status), m.d1, 64)
         else (m.status, m.d1, m.d2)
    ensures m.Call().ChannelMode? <==> MessageType(m.status) == CONTROL_CHANGE && m.d1 >= CONTROL_CHANGE_ALL_SOUND_OFF
  {
  }

  /** The two halves of a wheel position as they are sent give the position back. */
  lemma WheelSurvives(channel: Byte, value: real)
    requires channel <= CHANNEL_MAX
    ensures var w := FloatToWord(value);
      Message(PITCH_BEND_CHANGE + channel, w % 128, w / 128).Valid()
      && Message(PITCH_BEND_CHANGE + channel, w % 128, w / 128).Call() == PitchWheelChange(channel, w)
  {
    hide FloatToWord;
  }
}
