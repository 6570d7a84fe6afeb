/**
  The BLE sniffer module: Configure, and the per-packet loop that Start runs in
  the background over the stream of decoded JSON packets.

  The stream is a finite sequence of arrivals; each arrival carries the decoded
  value, whether the module still reports itself running when the value is
  taken from the channel, and the clock reading for it.
 */
module BleSniff {
  import opened Wrappers
  import opened JsonValue
  import opened BleEvent
  import opened BleParsers
  import opened BleStats
  import opened BleContext
  import HexParse

  const ModuleName := "ble.sniff"

  /** The access address of every advertising-channel packet, 0x8E89BED6 (Bluetooth
      Core Specification, Vol 6, Part B, section 2.1.2), as tshark prints it. */
  const AdvertisingAccessAddress := "0x8e89bed6"

  /** The string is "0x" followed by the hex numeral of 0x8E89BED6. */
  lemma AdvertisingAccessAddressValue()
    ensures AdvertisingAccessAddress[..2] == "0x"
    ensures HexParse.AllHex(AdvertisingAccessAddress[2..])
    ensures HexParse.HexValue(AdvertisingAccessAddress[2..]) == 0x8E89BED6
  {
    var h := AdvertisingAccessAddress[2..];
    assert h == "8e89bed6";
    assert HexParse.HexValue("8") == 0x8;
    assert "8e"[..1] == "8";
    assert HexParse.HexValue("8e") == 0x8E;
    assert "8e8"[..2] == "8e";
    assert HexParse.HexValue("8e8") == 0x8E8;
    assert "8e89"[..3] == "8e8";
    assert HexParse.HexValue("8e89") == 0x8E89;
    assert "8e89b"[..4] == "8e89";
    assert HexParse.HexValue("8e89b") == 0x8E89B;
    assert "8e89be"[..5] == "8e89b";
    assert HexParse.HexValue("8e89be") == 0x8E89BE;
    assert "8e89bed"[..6] == "8e89be";
    assert HexParse.HexValue("8e89bed") == 0x8E89BED;
    assert "8e89bed6"[..7] == "8e89bed";
    assert HexParse.HexValue("8e89bed6") == 0x8E89BED6;
  }

  const BtleKey := "btle"
  const AccessAddressKey := "btle.access_address"

  datatype Arrival = Arrival(value: Json, running: bool, now: Tick)

  /** The four shapes the loop tells apart. */
  datatype PacketKind =
    | NotAnObject
    | NoBtle
    | NoAccessAddress
    | WithAccessAddress(btle: Object, address: string)

  function Classify(v: Json): PacketKind {
    match AsObject(v)
    case None => NotAnObject
    case Some(packet) =>
      match ObjectAt(packet, BtleKey)
      case None => NoBtle
      case Some(btle) =>
        match StringAt(btle, AccessAddressKey)
        case None => NoAccessAddress
        case Some(address) => WithAccessAddress(btle, address)
  }

  predicate IsAdvertising(k: PacketKind) {
    k.WithAccessAddress? && k.address == AdvertisingAccessAddress
  }

  /** The event list one advertisement adds: its event, or nothing. */
  function EventsOf(e: Option<SnifferEvent>): seq<SnifferEvent> {
    if e.Some? then [e.value] else []
  }

  /** How the loop ended: the channel closed, the module stopped, or a `btle`
      object without an access address string made it return. */
  datatype LoopEnd = Exhausted | Stopped | AccessAddressMissing

  datatype LoopResult = LoopResult(stats: SnifferStats, events: seq<SnifferEvent>, end: LoopEnd)

  /** How one pass of the loop body ends: go on with the next packet, `break`, or `return`. */
  datatype Verdict = Next | Break | Return

  datatype StepResult = StepResult(stats: SnifferStats, events: seq<SnifferEvent>, verdict: Verdict)

  /** The timestamps of a packet that is taken from the channel while running. */
  function Touch(s: SnifferStats, now: Tick): SnifferStats {
    s.(firstPacket := if s.firstPacket == ZeroTime then now else s.firstPacket, lastPacket := now)
  }

  /** One pass of the loop body on arrival `a`. */
  function Step(s: SnifferStats, events: seq<SnifferEvent>, a: Arrival, table: CompanyTable): StepResult {
    if !a.running then StepResult(s, events, Break)
    else
      var s := Touch(s, a.now);
      match Classify(a.value)
      case NotAnObject => StepResult(s, events, Next)
      case NoBtle => StepResult(s, events, Next)
      case NoAccessAddress => StepResult(s, events, Return)
      case WithAccessAddress(btle, address) =>
        if address == AdvertisingAccessAddress then
          StepResult(s.(numAdvertisements := s.numAdvertisements + 1, numMatched := s.numMatched + 1),
                     events + EventsOf(OnAdvertisement(btle, a.now, table)), Next)
        else
          StepResult(s.(numMatched := s.numMatched + 1), events, Next)
  }

  /** The packet loop as a function of the statistics, the published events and the arrivals. */
  function Loop(s: SnifferStats, events: seq<SnifferEvent>, stream: seq<Arrival>, table: CompanyTable): LoopResult
    decreases |stream|
  {
    if stream == [] then LoopResult(s, events, Exhausted)
    else
      var r := Step(s, events, stream[0], table);
      match r.verdict
      case Next => Loop(r.stats, r.events, stream[1..], table)
      case Break => LoopResult(r.stats, r.events, Stopped)
      case Return => LoopResult(r.stats, r.events, AccessAddressMissing)
  }

  /** How many arrivals the loop takes, including the one it returns on. */
  function Taken(stream: seq<Arrival>): (n: nat)
    ensures n <= |stream|
  {
    if stream == [] || !stream[0].running then 0
    else if Classify(stream[0].value).NoAccessAddress? then 1
    else 1 + Taken(stream[1..])
  }

  /** Arrivals whose `btle` object has an access address string. */
  function CountMatched(xs: seq<Arrival>): nat {
    if xs == [] then 0
    else (if Classify(xs[0].value).WithAccessAddress? then 1 else 0) + CountMatched(xs[1..])
  }

  /** Arrivals whose access address is the advertising one. */
  function CountAdvertising(xs: seq<Arrival>): nat {
    if xs == [] then 0
    else (if IsAdvertising(Classify(xs[0].value)) then 1 else 0) + CountAdvertising(xs[1..])
  }

  /** The events the advertisements among `xs` produce, in order. */
  function AdvertEvents(xs: seq<Arrival>, table: CompanyTable): seq<SnifferEvent> {
    if xs == [] then []
    else
      var k := Classify(xs[0].value);
      (if IsAdvertising(k) then EventsOf(OnAdvertisement(k.btle, xs[0].now, table)) else [])
      + AdvertEvents(xs[1..], table)
  }

  /** Splitting off the first arrival of the taken prefix. */
  lemma TakenPrefix(stream: seq<Arrival>)
    requires Taken(stream) > 0
    ensures stream[..Taken(stream)][0] == stream[0]
    ensures stream[..Taken(stream)][1..] == stream[1..][..Taken(stream) - 1]
  {
    var n := Taken(stream);
    if Classify(stream[0].value).NoAccessAddress? {
      assert stream[..1][1..] == [] == stream[1..][..0];
    } else {
      assert n == 1 + Taken(stream[1..]);
      assert stream[..n][1..] == stream[1..n] == stream[1..][..n - 1];
    }
  }

  /** A packet that is not an object, or has no `btle` object, only moves the timestamps. */
  lemma SkippedPacket(s: SnifferStats, events: seq<SnifferEvent>, a: Arrival, table: CompanyTable)
    requires a.running && (Classify(a.value).NotAnObject? || Classify(a.value).NoBtle?)
    ensures Step(s, events, a, table) == StepResult(Touch(s, a.now), events, Next)
  {
  }

  /** A packet with an access address adds one matched packet, and one advertisement with
      its event exactly when the address is the advertising one; the loop goes on. */
  lemma MatchedPacket(s: SnifferStats, events: seq<SnifferEvent>, a: Arrival, table: CompanyTable)
    requires a.running && Classify(a.value).WithAccessAddress?
    ensures var k := Classify(a.value);
            var adv := k.address == AdvertisingAccessAddress;
            var t := Touch(s, a.now);
            Step(s, events, a, table)
            == StepResult(t.(numAdvertisements := t.numAdvertisements + (if adv then 1 else 0),
                             numMatched := t.numMatched + 1),
                          events + (if adv then EventsOf(OnAdvertisement(k.btle, a.now, table)) else []),
                          Next)
  {
    assert events + [] == events;
  }

  /** A `btle` object without an access address string ends the loop after the timestamps moved. */
  lemma MissingAccessAddress(s: SnifferStats, events: seq<SnifferEvent>, a: Arrival, table: CompanyTable)
    requires a.running && Classify(a.value).NoAccessAddress?
    ensures Step(s, events, a, table) == StepResult(Touch(s, a.now), events, Return)
  {
  }

  /** A packet taken after the module stopped ends the loop with nothing touched. */
  lemma StoppedPacket(s: SnifferStats, events: seq<SnifferEvent>, a: Arrival, table: CompanyTable)
    requires !a.running
    ensures Step(s, events, a, table) == StepResult(s, events, Break)
  {
  }

  /** How the loop ends: it takes running arrivals until the stream ends, an arrival
      finds the module stopped, or a `btle` object lacks its access address. */
  lemma {:induction false} LoopEnds(s: SnifferStats, events: seq<SnifferEvent>, stream: seq<Arrival>, table: CompanyTable)
    ensures var r := Loop(s, events, stream, table);
            var n := Taken(stream);
            && (forall j :: 0 <= j < n ==> stream[j].running)
            && (forall j :: 0 <= j < n - 1 ==> !Classify(stream[j].value).NoAccessAddress?)
            && (r.end.AccessAddressMissing? <==> n > 0 && Classify(stream[n - 1].value).NoAccessAddress?)
            && (r.end.Exhausted? ==> n == |stream|)
            && (r.end.Stopped? <==> n < |stream| && (n == 0 || !Classify(stream[n - 1].value).NoAccessAddress?))
            && (r.end.Stopped? ==> !stream[n].running)
    decreases |stream|
  {
    if stream != [] {
      var r := Step(s, events, stream[0], table);
      if r.verdict.Next? {
        LoopEnds(r.stats, r.events, stream[1..], table);
      }
    }
  }

  /** Over the arrivals the loop takes, NumMatched grows by the packets with an access
      address and NumAdvertisements by those with the advertising one; the other
      counters and the start time do not change. */
  lemma {:induction false} LoopCounters(s: SnifferStats, events: seq<SnifferEvent>, stream: seq<Arrival>, table: CompanyTable)
    ensures var r := Loop(s, events, stream, table);
            var taken := stream[..Taken(stream)];
            && r.stats.numMatched == s.numMatched + CountMatched(taken)
            && r.stats.numAdvertisements == s.numAdvertisements + CountAdvertising(taken)
            && r.stats.numDumped == s.numDumped && r.stats.numWrote == s.numWrote
            && r.stats.started == s.started
    decreases |stream|
  {
    if stream != [] && stream[0].running {
      var r := Step(s, events, stream[0], table);
      TakenPrefix(stream);
      if r.verdict.Next? {
        LoopCounters(r.stats, r.events, stream[1..], table);
      }
    }
  }

  /** FirstPacket is set by the first arrival taken and only when it was still zero;
      LastPacket is the clock reading of the last arrival taken, skipped ones included. */
  lemma {:induction false} LoopTimestamps(s: SnifferStats, events: seq<SnifferEvent>, stream: seq<Arrival>, table: CompanyTable)
    ensures var r := Loop(s, events, stream, table);
            var n := Taken(stream);
            && (n == 0 ==> r.stats.firstPacket == s.firstPacket && r.stats.lastPacket == s.lastPacket)
            && (n > 0 ==> r.stats.lastPacket == stream[n - 1].now)
            && (n > 0 ==> r.stats.firstPacket == if s.firstPacket == ZeroTime then stream[0].now else s.firstPacket)
    decreases |stream|
  {
    if stream != [] && stream[0].running {
      var r := Step(s, events, stream[0], table);
      if r.verdict.Next? {
        LoopTimestamps(r.stats, r.events, stream[1..], table);
      }
    }
  }

  /** The loop publishes, after the events already there, exactly the events of the
      advertisements it takes, in order. */
  lemma {:induction false} LoopEvents(s: SnifferStats, events: seq<SnifferEvent>, stream: seq<Arrival>, table: CompanyTable)
    ensures Loop(s, events, stream, table).events == events + AdvertEvents(stream[..Taken(stream)], table)
    decreases |stream|
  {
    if stream == [] || !stream[0].running {
      assert stream[..Taken(stream)] == [];
    } else {
      var a := stream[0];
      var r := Step(s, events, a, table);
      var k := Classify(a.value);
      var mine := if IsAdvertising(k) then EventsOf(OnAdvertisement(k.btle, a.now, table)) else [];
      assert r.events == events + mine;
      TakenPrefix(stream);
      if r.verdict.Next? {
        var rest := stream[1..];
        LoopEvents(r.stats, r.events, rest, table);
        assert r.events + AdvertEvents(rest[..Taken(rest)], table)
            == events + (mine + AdvertEvents(rest[..Taken(rest)], table));
      } else {
        assert stream[..Taken(stream)][1..] == [];
      }
    }
  }

  /** Every advertisement is a matched packet and publishes at most one event. */
  lemma {:induction false} CountsOrdered(xs: seq<Arrival>, table: CompanyTable)
    ensures CountAdvertising(xs) <= CountMatched(xs)
    ensures |AdvertEvents(xs, table)| <= CountAdvertising(xs)
  {
    if xs != [] {
      CountsOrdered(xs[1..], table);
    }
  }

  /** Every published event is a BLE advertisement sent to broadcast. */
  lemma {:induction false} AdvertEventsAreAdverts(xs: seq<Arrival>, table: CompanyTable)
    ensures forall e :: e in AdvertEvents(xs, table) ==> e.protocol == AdvertProtocol && e.destination == Broadcast
  {
    if xs != [] {
      AdvertEventsAreAdverts(xs[1..], table);
      var k := Classify(xs[0].value);
      if IsAdvertising(k) && OnAdvertisement(k.btle, xs[0].now, table).Some? {
        AdvertisementIsProprietary(k.btle, xs[0].now, table);
        EmitsIff(k.btle, xs[0].now, table);
        EmittedEvent(k.btle, xs[0].now, table);
      }
    }
  }

  /** NumAdvertisements <= NumMatched is kept by the loop. */
  lemma AdvertisementsBounded(s: SnifferStats, events: seq<SnifferEvent>, stream: seq<Arrival>, table: CompanyTable)
    requires s.numAdvertisements <= s.numMatched
    ensures var r := Loop(s, events, stream, table);
            r.stats.numAdvertisements <= r.stats.numMatched
  {
    LoopCounters(s, events, stream, table);
    CountsOrdered(stream[..Taken(stream)], table);
  }

  class Sniffer {
    /** What the host's Running() reports. */
    var running: bool
    var ctx: SnifferContext?
    var stats: Option<SnifferStats>
    /** Whether the packet source channel is set (non-nil). */
    var streaming: bool
    /** The events pushed to the session's event stream. */
    var events: seq<SnifferEvent>

    /** NewSniffer: not running, a blank context, no statistics yet. */
    constructor ()
      ensures !running && ctx != null && fresh(ctx) && ctx.State() == DefaultContext()
      ensures stats == None && !streaming && events == []
    {
      running, stats, streaming, events := false, None, false, [];
      ctx := new SnifferContext();
    }

    /** Refuses while running; otherwise builds a new context, and on error closes
        it and leaves no context. `cleanup` is what that Close did. */
    method Configure(env: Environment) returns (err: Option<Error>, cleanup: Option<CloseEffects>)
      modifies this
      ensures old(running) ==> err == Some(AlreadyStarted(ModuleName)) && cleanup == None && ctx == old(ctx)
      ensures !old(running) ==> err == ContextFor(env).0
      ensures !old(running) && err == None ==>
                cleanup == None && ctx != null && fresh(ctx) && ctx.State() == ContextFor(env).1
      ensures !old(running) && err != None ==>
                ctx == null
                && cleanup == Some(CloseEffects(ContextFor(env).1.tsharkRunning, ContextFor(env).1.outputFile.Some?))
      ensures running == old(running) && stats == old(stats) && streaming == old(streaming) && events == old(events)
    {
      cleanup := None;
      if running {
        return Some(AlreadyStarted(ModuleName)), None;
      }
      var c;
      err, c := GetContext(env);
      ctx := c;
      if err.Some? {
        if ctx != null {
          var effects := ctx.Close();
          cleanup := Some(effects);
          ctx := null;
        }
        return;
      }
      err := None;
    }

    /** The body of the packet loop for one arrival: the running check, the
        timestamps, the three typed lookups, and the counters. */
    method HandlePacket(packet: Arrival, table: CompanyTable) returns (verdict: Verdict)
      requires stats.Some?
      modifies this
      ensures var r := Step(old(stats.value), old(events), packet, table);
              stats == Some(r.stats) && events == r.events && verdict == r.verdict
      ensures running == old(running) && ctx == old(ctx) && streaming == old(streaming)
    {
      if !packet.running {
        return Break;
      }

      var st := stats.value;
      if st.firstPacket == ZeroTime {
        st := st.(firstPacket := packet.now);
      }
      st := st.(lastPacket := packet.now);
      stats := Some(st);

      var packetMap := AsObject(packet.value);
      if packetMap.None? {
        return Next;
      }
      var btleData := ObjectAt(packetMap.value, BtleKey);
      if btleData.None? {
        return Next;
      }
      var accessAddress := StringAt(btleData.value, AccessAddressKey);
      if accessAddress.None? {
        return Return;
      }
      if accessAddress.value == AdvertisingAccessAddress {
        var event := OnAdvertisement(btleData.value, packet.now, table);
        if event.Some? {
          events := events + [event.value];
        }
        st := st.(numAdvertisements := st.numAdvertisements + 1);
      }
      st := st.(numMatched := st.numMatched + 1);
      stats := Some(st);
      verdict := Next;
    }

    /** The body Start runs in the background: fresh statistics started at `started`,
        then the loop body for each arrival until one says otherwise. Ends with the
        channel reset, except when it returns on a `btle` object without an access address. */
    method PacketLoop(stream: seq<Arrival>, started: Tick, table: CompanyTable)
      modifies this
      ensures var r := Loop(NewSnifferStats(started), old(events), stream, table);
              stats == Some(r.stats) && events == r.events && streaming == r.end.AccessAddressMissing?
      ensures running == old(running) && ctx == old(ctx)
    {
      stats := Some(NewSnifferStats(started));
      streaming := true;
      var i := 0;
      while i < |stream|
        invariant 0 <= i <= |stream|
        invariant stats.Some? && streaming
        invariant Loop(stats.value, events, stream[i..], table)
               == Loop(NewSnifferStats(started), old(events), stream, table)
        invariant stats.value.numAdvertisements <= stats.value.numMatched
        invariant running == old(running) && ctx == old(ctx)
      {
        assert stream[i..][0] == stream[i] && stream[i..][1..] == stream[i + 1..];
        var verdict := HandlePacket(stream[i], table);
        i := i + 1;
        if verdict == Break {
          break;
        } else if verdict == Return {
          return;
        }
      }
      streaming := false;
    }
  }
}
