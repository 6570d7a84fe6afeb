/** The sniffer's statistics and the labels its summary prints. */
module BleStats {
  import opened Wrappers
  import opened BleEvent

  /** Counters are unbounded here; the source's uint64 counters would need 2^64 packets to wrap. */
  datatype SnifferStats = SnifferStats(
    numAdvertisements: nat,
    numMatched: nat,
    numDumped: nat,
    numWrote: nat,
    started: Time,
    firstPacket: Time,
    lastPacket: Time)

  const ZeroTime: Time := 0
  const Never := "never"

  /** Fresh statistics: every counter 0, started at `now`, no packet seen yet. */
  function NewSnifferStats(now: Tick): (s: SnifferStats)
    ensures s.numAdvertisements == 0 && s.numMatched == 0 && s.numDumped == 0 && s.numWrote == 0
    ensures s.started == now
    ensures s.firstPacket == ZeroTime && s.lastPacket == ZeroTime
  {
    SnifferStats(0, 0, 0, 0, now, ZeroTime, ZeroTime)
  }

  /** What Print logs: the start time, the first/last packet labels and three counters. */
  datatype StatsReport = StatsReport(
    started: string,
    firstPacket: string,
    lastPacket: string,
    advertisements: nat,
    matched: nat,
    dumped: nat)

  /** "never" for the zero time, otherwise the time in its string form `show`. */
  function TimeLabel(t: Time, show: Time -> string): string {
    if t == ZeroTime then Never else show(t)
  }

  /** Print's log lines as a report, with the error it returns (always none). */
  function Print(s: SnifferStats, show: Time -> string): (r: (StatsReport, Option<string>))
    ensures r.1 == None
  {
    (StatsReport(show(s.started), TimeLabel(s.firstPacket, show), TimeLabel(s.lastPacket, show),
                 s.numAdvertisements, s.numMatched, s.numDumped),
     None)
  }

  /** No real instant is spelled "never". */
  ghost predicate NeverIsNoTime(show: Time -> string) {
    forall t: Time :: t != ZeroTime ==> show(t) != Never
  }

  /** Each label reads "never" exactly when its time is the zero time, and otherwise is that time's string. */
  lemma PrintLabels(s: SnifferStats, show: Time -> string)
    requires NeverIsNoTime(show)
    ensures var report := Print(s, show).0;
            && (report.firstPacket == Never <==> s.firstPacket == ZeroTime)
            && (report.lastPacket == Never <==> s.lastPacket == ZeroTime)
            && (s.firstPacket != ZeroTime ==> report.firstPacket == show(s.firstPacket))
            && (s.lastPacket != ZeroTime ==> report.lastPacket == show(s.lastPacket))
  {
  }

  /** Fresh statistics print "never" for both packets and zero for every counter. */
  lemma NewStatsReport(now: Tick, show: Time -> string)
    ensures Print(NewSnifferStats(now), show).0
            == StatsReport(show(now), Never, Never, 0, 0, 0)
  {
  }
}
