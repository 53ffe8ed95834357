/**
 * MIDI capture: the input handle with its port snapshot and one-shot
 * connection, the per-event callback that queues `VLQ(delta_ms) ++ message`
 * records, and the drain that flattens the queue for the caller.
 *
 * The channel between the MIDI thread and the caller is the field `queue`;
 * the callback and the drain are methods called one after the other.
 */
module MidiCapture {
  import opened Prims
  import opened Wrappers
  import Vlq

  /** Why a connect is refused (the Rust code panics in both cases). */
  datatype ConnectError =
    | InputAlreadyUsed  // `midi_input` was already taken by an earlier connect
    | PortOutOfRange    // `ports[port_index as usize]` is out of bounds

  /** The callback's timestamps never go backwards: the `u64` subtraction
      `timestamp_us - previous_timestamp_us` assumes it. */
  predicate InOrder(previous: Option<U64>, timestampUs: U64)
  {
    previous.Some? ==> previous.value <= timestampUs
  }

  /** Milliseconds since the previous event, truncated; 0 for the first event. */
  function DeltaMs(previous: Option<U64>, timestampUs: U64): (d: U64)
    requires InOrder(previous, timestampUs)
    ensures previous.None? ==> d == 0
    ensures previous.Some? ==> d * 1000 <= timestampUs - previous.value < d * 1000 + 1000
  {
    match previous
    case None => 0
    case Some(p) => (timestampUs - p) / 1000
  }

  /** The record the callback sends for one event. */
  function EventRecord(previous: Option<U64>, timestampUs: U64, message: seq<Byte>): seq<Byte>
    requires InOrder(previous, timestampUs)
  {
    Vlq.Encode(DeltaMs(previous, timestampUs)) + message
  }

  /** A record splits back into its (clamped) delta and the message bytes. */
  lemma {:induction false} EventRecordParses(previous: Option<U64>, timestampUs: U64, message: seq<Byte>)
    requires InOrder(previous, timestampUs)
    ensures var r := EventRecord(previous, timestampUs, message);
      && Vlq.Read(r).Some?
      && Vlq.Read(r).value.0 == Min(DeltaMs(previous, timestampUs), Vlq.MAX_VALUE)
      && Vlq.Read(r).value.1 <= |r|
      && r[Vlq.Read(r).value.1..] == message
  {
    var d := DeltaMs(previous, timestampUs);
    Vlq.ReadEncoded(d, message);
  }

  /** All queued records, concatenated in queue order. */
  function Flatten(q: seq<seq<Byte>>): seq<Byte>
  {
    if q == [] then [] else q[0] + Flatten(q[1..])
  }

  lemma {:induction false} FlattenAppend(a: seq<seq<Byte>>, b: seq<seq<Byte>>)
    ensures Flatten(a + b) == Flatten(a) + Flatten(b)
  {
    if a == [] {
      assert a + b == b;
    } else {
      assert (a + b)[1..] == a[1..] + b;
      FlattenAppend(a[1..], b);
    }
  }

  /** Whether `ts` is a non-decreasing run of event timestamps. */
  predicate Sorted(ts: seq<U64>)
  {
    forall i, j :: 0 <= i < j < |ts| ==> ts[i] <= ts[j]
  }

  /** Sum of the millisecond deltas the callback reports for events `ts[1..]`
      when the event `ts[0]` came first. */
  function TotalDeltaMs(ts: seq<U64>): nat
    requires Sorted(ts)
  {
    if |ts| <= 1 then 0
    else TotalDeltaMs(ts[..|ts| - 1]) + DeltaMs(Some(ts[|ts| - 2]), ts[|ts| - 1])
  }

  /** Truncating every delta to whole milliseconds loses less than a
      millisecond per event, and never reports more time than elapsed. */
  lemma {:induction false} TruncationDrift(ts: seq<U64>)
    requires Sorted(ts) && |ts| >= 1
    ensures TotalDeltaMs(ts) * 1000 <= ts[|ts| - 1] - ts[0]
    ensures ts[|ts| - 1] - ts[0] < TotalDeltaMs(ts) * 1000 + (|ts| - 1) * 1000 || |ts| == 1
  {
    if |ts| > 1 {
      var init := ts[..|ts| - 1];
      assert Sorted(init);
      TruncationDrift(init);
      assert init[|init| - 1] == ts[|ts| - 2];
      assert init[0] == ts[0];
    }
  }

  class MidiInput {
    /** The number of ports in the `ports` list captured when the input was
        created; connect indexes this list. */
    const portCount: nat
    /** The port names, taken from a second, separate enumeration of the
        driver's ports; never refreshed and never consulted by connect. */
    const portNames: seq<string>
    /** `midi_input.is_some()`: the capability has not yet been moved into a
        connection. */
    var inputAvailable: bool
    /** The port of the live connection; the receiver exists exactly when a
        connection does. */
    var connectedPort: Option<nat>
    /** Records sent by the callback and not yet drained, oldest first. */
    var queue: seq<seq<Byte>>
    /** The callback's `previous_timestamp_us`. */
    var previousTimestampUs: Option<U64>

    ghost predicate Valid()
      reads this
    {
      && (connectedPort.Some? ==> !inputAvailable && connectedPort.value < portCount)
      && (connectedPort.None? ==> queue == [] && previousTimestampUs.None?)
    }

    /** `create_midi_input`, given the length of the first port list and the
        names read from the second. */
    constructor (ports: nat, names: seq<string>)
      ensures Valid()
      ensures portCount == ports && portNames == names
      ensures inputAvailable && connectedPort == None
      ensures queue == [] && previousTimestampUs == None
    {
      portCount := ports;
      portNames := names;
      inputAvailable := true;
      connectedPort := None;
      queue := [];
      previousTimestampUs := None;
    }

    /** `midi_port_connect` as written: the capability is taken before the
        port is looked up, so an out-of-range index still consumes it. */
    method ConnectAsWritten(portIndex: I32) returns (r: Outcome<ConnectError>)
      requires Valid()
      modifies this
      ensures Valid()
      ensures queue == old(queue)
      ensures previousTimestampUs == old(previousTimestampUs)
      ensures r == Pass <==> old(inputAvailable) && I32ToUsize(portIndex) < portCount
      ensures !old(inputAvailable) ==> r == Fail(InputAlreadyUsed) && connectedPort == old(connectedPort)
      ensures !inputAvailable
      ensures old(inputAvailable) && I32ToUsize(portIndex) >= portCount ==>
        r == Fail(PortOutOfRange) && connectedPort == None
      ensures r == Pass ==> connectedPort == Some(I32ToUsize(portIndex) as nat)
      ensures portCount <= U64_MODULUS + I32_MIN ==>
        (r == Pass <==> old(inputAvailable) && 0 <= portIndex < portCount)
    {
      if portCount <= U64_MODULUS + I32_MIN {
        IndexInBounds(portIndex, portCount);
      }
      if !inputAvailable {
        return Fail(InputAlreadyUsed);
      }
      inputAvailable := false;
      if I32ToUsize(portIndex) >= portCount {
        return Fail(PortOutOfRange);
      }
      // A fresh channel and a callback whose previous timestamp is None.
      connectedPort := Some(I32ToUsize(portIndex) as nat);
      queue := [];
      previousTimestampUs := None;
      r := Pass;
    }

    /** `midi_port_connect` with the port checked before the capability is
        taken: a refused connect changes nothing. */
    method Connect(portIndex: I32) returns (r: Outcome<ConnectError>)
      requires Valid()
      modifies this
      ensures Valid()
      ensures queue == old(queue)
      ensures previousTimestampUs == old(previousTimestampUs)
      ensures r == Pass <==> old(inputAvailable) && I32ToUsize(portIndex) < portCount
      ensures I32ToUsize(portIndex) >= portCount ==> r == Fail(PortOutOfRange)
      ensures I32ToUsize(portIndex) < portCount && !old(inputAvailable) ==> r == Fail(InputAlreadyUsed)
      ensures r.Fail? ==> inputAvailable == old(inputAvailable) && connectedPort == old(connectedPort)
      ensures r == Pass ==> !inputAvailable && connectedPort == Some(I32ToUsize(portIndex) as nat)
      ensures portCount <= U64_MODULUS + I32_MIN ==>
        (r == Pass <==> old(inputAvailable) && 0 <= portIndex < portCount)
    {
      if portCount <= U64_MODULUS + I32_MIN {
        IndexInBounds(portIndex, portCount);
      }
      if I32ToUsize(portIndex) >= portCount {
        return Fail(PortOutOfRange);
      }
      if !inputAvailable {
        return Fail(InputAlreadyUsed);
      }
      inputAvailable := false;
      connectedPort := Some(I32ToUsize(portIndex) as nat);
      queue := [];
      previousTimestampUs := None;
      r := Pass;
    }

    /** The callback the driver runs for each incoming event. */
    method OnEvent(timestampUs: U64, message: seq<Byte>)
      requires Valid() && connectedPort.Some?
      requires InOrder(previousTimestampUs, timestampUs)
      modifies this
      ensures Valid()
      ensures queue == old(queue) + [EventRecord(old(previousTimestampUs), timestampUs, message)]
      ensures previousTimestampUs == Some(timestampUs)
      ensures inputAvailable == old(inputAvailable) && connectedPort == old(connectedPort)
    {
      var deltaUs: U64 := match previousTimestampUs
        case None => 0
        case Some(p) => timestampUs - p;
      previousTimestampUs := Some(timestampUs);
      var deltaMs: U64 := deltaUs / 1000;
      var data := Vlq.Encode(deltaMs);
      var i := 0;
      while i < |message|
        invariant 0 <= i <= |message|
        invariant data == Vlq.Encode(deltaMs) + message[..i]
      {
        data := data + [message[i]];
        i := i + 1;
      }
      assert message[..i] == message;
      queue := queue + [data];
    }

    /** `midi_port_drain_messages`: empty the queue and return its records
        concatenated, oldest first. */
    method Drain() returns (out: seq<Byte>)
      requires Valid()
      modifies this
      ensures Valid()
      ensures out == Flatten(old(queue)) && queue == []
      ensures old(connectedPort).None? ==> out == []
      ensures inputAvailable == old(inputAvailable) && connectedPort == old(connectedPort)
      ensures previousTimestampUs == old(previousTimestampUs)
    {
      out := [];
      if connectedPort.Some? {
        while queue != []
          invariant Valid()
          invariant out + Flatten(queue) == Flatten(old(queue))
          invariant inputAvailable == old(inputAvailable) && connectedPort == old(connectedPort)
          invariant previousTimestampUs == old(previousTimestampUs)
          decreases |queue|
        {
          var record := queue[0];
          ghost var before := out;
          var rest := queue[1..];
          assert Flatten(queue) == record + Flatten(rest);
          queue := rest;
          var j := 0;
          while j < |record|
            invariant 0 <= j <= |record|
            invariant out == before + record[..j]
          {
            assert record[..j + 1] == record[..j] + [record[j]];
            out := out + [record[j]];
            j := j + 1;
          }
          assert record[..j] == record;
          assert out + Flatten(queue) == before + (record + Flatten(rest));
        }
      }
    }
  }

  /** Connect, two events 250.7 ms apart, drain twice, connect again. */
  method CaptureScenario() returns (first: seq<Byte>, second: seq<Byte>, again: Outcome<ConnectError>)
    ensures first == [0x00, 0x90, 60, 100, 0x81, 0x7A, 0x80, 60, 0]
    ensures second == []
    ensures again == Fail(InputAlreadyUsed)
  {
    var input := new MidiInput(2, ["through", "keyboard"]);
    var connected := input.ConnectAsWritten(1);
    assert connected == Pass;
    input.OnEvent(1_000_000, [0x90, 60, 100]);
    assert DeltaMs(None, 1_000_000) == 0 && Vlq.Encode(0) == [0x00];
    assert EventRecord(None, 1_000_000, [0x90, 60, 100]) == [0x00] + [0x90, 60, 100];
    assert [0x00] + [0x90, 60, 100] == [0x00, 0x90, 60, 100];
    assert input.queue == [[0x00, 0x90, 60, 100]];
    input.OnEvent(1_250_700, [0x80, 60, 0]);
    assert DeltaMs(Some(1_000_000), 1_250_700) == 250 && Vlq.Encode(250) == [0x81, 0x7A];
    assert EventRecord(Some(1_000_000), 1_250_700, [0x80, 60, 0]) == [0x81, 0x7A] + [0x80, 60, 0];
    assert [0x81, 0x7A] + [0x80, 60, 0] == [0x81, 0x7A, 0x80, 60, 0];
    var records := [[0x00, 0x90, 60, 100], [0x81, 0x7A, 0x80, 60, 0]];
    assert input.queue == records;
    assert Flatten(records[1..]) == records[1] + Flatten([]);
    first := input.Drain();
    assert input.queue == [];
    second := input.Drain();
    again := input.ConnectAsWritten(0);
  }

  /** As written, connecting to port -1 burns the capability, so a later
      connect to the valid port 0 is refused. */
  method BadIndexConsumesInput() returns (first: Outcome<ConnectError>, second: Outcome<ConnectError>, third: Outcome<ConnectError>)
    ensures first == Fail(PortOutOfRange)
    ensures second == Fail(InputAlreadyUsed)
    ensures third == Fail(InputAlreadyUsed)
  {
    var input := new MidiInput(1, ["keyboard"]);
    first := input.ConnectAsWritten(-1);
    second := input.ConnectAsWritten(0);
    third := input.ConnectAsWritten(0);
  }

  /** With the port checked first, the same calls leave the capability
      usable and the second connect succeeds. */
  method BadIndexKeepsInput() returns (first: Outcome<ConnectError>, second: Outcome<ConnectError>)
    ensures first == Fail(PortOutOfRange)
    ensures second == Pass
  {
    var input := new MidiInput(1, ["keyboard"]);
    first := input.Connect(-1);
    second := input.Connect(0);
  }
}
