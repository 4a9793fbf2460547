/**
 * The station dashboard's figures, computed from the tickets and walk-ins
 * already fetched: walk-ins today and in the last seven days, tickets
 * reported and closed today, tickets still open, the mean turnaround of
 * today's closures, and the per-engineer tally of the last seven days.
 *
 * `today` is the "YYYY-MM-DD" prefix of the current ISO time, and
 * `sevenDaysAgo` the instant seven days before now; both are parameters.
 */
module DashboardMetrics {
  import opened Wrappers
  import opened Records
  import opened Seqs

  // ---------------------------------------------------------------------
  // Walk-in metrics
  // ---------------------------------------------------------------------

  datatype WalkInMetrics = WalkInMetrics(today: nat, week: nat)

  /** `w.logged_at?.startsWith(today)` */
  predicate LoggedToday(w: Walkin, today: string)
  {
    StartsWith(w.loggedAt, today)
  }

  /** A walk-in with a `logged_at` no earlier than the cutoff. */
  predicate LoggedSince(w: Walkin, sevenDaysAgo: int)
  {
    StampTruthy(w.loggedAt) && w.loggedAt.value.ms >= sevenDaysAgo
  }

  function WalkInMetricsOf(walkins: seq<Walkin>, today: string, sevenDaysAgo: int): WalkInMetrics
  {
    WalkInMetrics(
      Count(walkins, w => LoggedToday(w, today)),
      Count(walkins, w => LoggedSince(w, sevenDaysAgo)))
  }

  /** Each figure is the number of positions in the list whose walk-in passes that figure's test. */
  lemma WalkInMetricsCount(walkins: seq<Walkin>, today: string, sevenDaysAgo: int)
    ensures WalkInMetricsOf(walkins, today, sevenDaysAgo).today
         == |set i | 0 <= i < |walkins| && LoggedToday(walkins[i], today)|
    ensures WalkInMetricsOf(walkins, today, sevenDaysAgo).week
         == |set i | 0 <= i < |walkins| && LoggedSince(walkins[i], sevenDaysAgo)|
  {
    CountIsIndexCount(walkins, w => LoggedToday(w, today),
      set i | 0 <= i < |walkins| && LoggedToday(walkins[i], today));
    CountIsIndexCount(walkins, w => LoggedSince(w, sevenDaysAgo),
      set i | 0 <= i < |walkins| && LoggedSince(walkins[i], sevenDaysAgo));
  }

  /** A walk-in with no `logged_at`, wherever it sits in the list, adds to neither figure. */
  lemma WalkinWithoutTimestampIgnored(before: seq<Walkin>, w: Walkin, after: seq<Walkin>, today: string, sevenDaysAgo: int)
    requires w.loggedAt.None?
    ensures WalkInMetricsOf(before + [w] + after, today, sevenDaysAgo)
         == WalkInMetricsOf(before + after, today, sevenDaysAgo)
  {
    var p := (x: Walkin) => LoggedToday(x, today);
    var q := (x: Walkin) => LoggedSince(x, sevenDaysAgo);
    FilterAppend(before + [w], after, p);
    FilterAppend(before, [w], p);
    FilterAppend(before, after, p);
    FilterAppend(before + [w], after, q);
    FilterAppend(before, [w], q);
    FilterAppend(before, after, q);
  }

  /** When today began after the cutoff, every walk-in of today is also one of the week. */
  lemma TodayWithinWeek(walkins: seq<Walkin>, today: string, sevenDaysAgo: int)
    requires today != ""
    requires forall i :: 0 <= i < |walkins| && LoggedToday(walkins[i], today) ==> walkins[i].loggedAt.value.ms >= sevenDaysAgo
    ensures WalkInMetricsOf(walkins, today, sevenDaysAgo).today <= WalkInMetricsOf(walkins, today, sevenDaysAgo).week
  {
    CountMono(walkins, w => LoggedToday(w, today), w => LoggedSince(w, sevenDaysAgo));
  }

  // ---------------------------------------------------------------------
  // Ticket counts and mean turnaround
  // ---------------------------------------------------------------------

  /** `t.reported_at?.startsWith(today)` */
  predicate ReportedToday(t: Ticket, today: string)
  {
    StartsWith(t.reportedAt, today)
  }

  /** `t.closed_at && t.closed_at.startsWith(today)` */
  predicate ClosedToday(t: Ticket, today: string)
  {
    StampTruthy(t.closedAt) && today <= t.closedAt.value.text
  }

  /** `t.status === "open"` */
  predicate IsOpen(t: Ticket)
  {
    t.status == "open"
  }

  /** `(new Date(closed_at) - new Date(reported_at)) / 60000`, exact. */
  function TatMinutes(t: Ticket): real
  {
    (Instant(t.closedAt) - Instant(t.reportedAt)) as real / 60000.0
  }

  /** `totalToday` */
  function TotalToday(tickets: seq<Ticket>, today: string): nat
  {
    Count(tickets, t => ReportedToday(t, today))
  }

  /** `closedToday` */
  function ClosedTodayCount(tickets: seq<Ticket>, today: string): nat
  {
    Count(tickets, t => ClosedToday(t, today))
  }

  /** `openNow` */
  function OpenNow(tickets: seq<Ticket>): nat
  {
    Count(tickets, IsOpen)
  }

  /** The mean of TatMinutes over today's closures, or 0 when there are none. */
  function AvgTat(tickets: seq<Ticket>, today: string): real
  {
    var closed := Filter(tickets, t => ClosedToday(t, today));
    if |closed| > 0 then Sum(closed, TatMinutes) / |closed| as real else 0.0
  }

  /** Each count is the number of positions in the list whose ticket passes that count's test. */
  lemma TicketCountsCount(tickets: seq<Ticket>, today: string)
    ensures TotalToday(tickets, today) == |set i | 0 <= i < |tickets| && ReportedToday(tickets[i], today)|
    ensures ClosedTodayCount(tickets, today) == |set i | 0 <= i < |tickets| && ClosedToday(tickets[i], today)|
    ensures OpenNow(tickets) == |set i | 0 <= i < |tickets| && tickets[i].status == "open"|
  {
    CountIsIndexCount(tickets, t => ReportedToday(t, today),
      set i | 0 <= i < |tickets| && ReportedToday(tickets[i], today));
    CountIsIndexCount(tickets, t => ClosedToday(t, today),
      set i | 0 <= i < |tickets| && ClosedToday(tickets[i], today));
    CountIsIndexCount(tickets, IsOpen,
      set i | 0 <= i < |tickets| && tickets[i].status == "open");
  }

  /** A ticket with no `reported_at` never counts as reported today; one with no `closed_at` never as closed today. */
  lemma TicketWithoutTimestampIgnored(before: seq<Ticket>, t: Ticket, after: seq<Ticket>, today: string)
    ensures t.reportedAt.None? ==> TotalToday(before + [t] + after, today) == TotalToday(before + after, today)
    ensures t.closedAt.None? ==> ClosedTodayCount(before + [t] + after, today) == ClosedTodayCount(before + after, today)
  {
    var p := (x: Ticket) => ReportedToday(x, today);
    var q := (x: Ticket) => ClosedToday(x, today);
    FilterAppend(before + [t], after, p);
    FilterAppend(before, [t], p);
    FilterAppend(before, after, p);
    FilterAppend(before + [t], after, q);
    FilterAppend(before, [t], q);
    FilterAppend(before, after, q);
  }

  lemma MeanAtLeast(sum: real, n: real, lo: real)
    requires n > 0.0 && n * lo <= sum
    ensures lo <= sum / n
  {
    var q := sum / n;
    assert q * n == sum;
    assert n * lo <= n * q;
  }

  lemma MeanAtMost(sum: real, n: real, hi: real)
    requires n > 0.0 && sum <= n * hi
    ensures sum / n <= hi
  {
    var q := sum / n;
    assert q * n == sum;
  }

  /** With no closure today the mean is 0; otherwise it is no smaller than a lower bound on every turnaround. */
  lemma AvgTatAtLeast(tickets: seq<Ticket>, today: string, lo: real)
    requires forall i :: 0 <= i < |tickets| && ClosedToday(tickets[i], today) ==> lo <= TatMinutes(tickets[i])
    ensures ClosedTodayCount(tickets, today) == 0 ==> AvgTat(tickets, today) == 0.0
    ensures ClosedTodayCount(tickets, today) > 0 ==> lo <= AvgTat(tickets, today)
  {
    var closed := Filter(tickets, t => ClosedToday(t, today));
    if |closed| > 0 {
      forall i | 0 <= i < |closed| ensures lo <= TatMinutes(closed[i]) {
        assert closed[i] in tickets;
      }
      SumAtLeast(closed, TatMinutes, lo);
      MeanAtLeast(Sum(closed, TatMinutes), |closed| as real, lo);
    }
  }

  /** When today's closures exist, the mean is no larger than an upper bound on every turnaround. */
  lemma AvgTatAtMost(tickets: seq<Ticket>, today: string, hi: real)
    requires forall i :: 0 <= i < |tickets| && ClosedToday(tickets[i], today) ==> TatMinutes(tickets[i]) <= hi
    ensures ClosedTodayCount(tickets, today) > 0 ==> AvgTat(tickets, today) <= hi
  {
    var closed := Filter(tickets, t => ClosedToday(t, today));
    if |closed| > 0 {
      forall i | 0 <= i < |closed| ensures TatMinutes(closed[i]) <= hi {
        assert closed[i] in tickets;
      }
      SumAtMost(closed, TatMinutes, hi);
      MeanAtMost(Sum(closed, TatMinutes), |closed| as real, hi);
    }
  }

  /** If no ticket closed today was closed before it was reported, the mean turnaround is not negative. */
  lemma AvgTatNonNegative(tickets: seq<Ticket>, today: string)
    requires forall i :: 0 <= i < |tickets| && ClosedToday(tickets[i], today) ==>
               Instant(tickets[i].reportedAt) <= Instant(tickets[i].closedAt)
    ensures AvgTat(tickets, today) >= 0.0
  {
    AvgTatAtLeast(tickets, today, 0.0);
  }

  // ---------------------------------------------------------------------
  // Engineer performance over the last seven days
  // ---------------------------------------------------------------------

  datatype Tally = Tally(tickets: nat, walkins: nat)

  /** A ticket that passes both early returns of the first loop. */
  predicate TicketQualifies(t: Ticket, sevenDaysAgo: int)
  {
    Truthy(t.closedBy) && StampTruthy(t.closedAt) && !(t.closedAt.value.ms < sevenDaysAgo)
  }

  /** A walk-in that passes both early returns of the second loop. */
  predicate WalkinQualifies(w: Walkin, sevenDaysAgo: int)
  {
    Truthy(w.engineerId) && StampTruthy(w.loggedAt) && !(w.loggedAt.value.ms < sevenDaysAgo)
  }

  /** The number of qualifying tickets closed by engineer `e`. */
  function TicketsBy(tickets: seq<Ticket>, e: string, sevenDaysAgo: int): nat
  {
    Count(tickets, t => TicketQualifies(t, sevenDaysAgo) && t.closedBy.value == e)
  }

  /** The number of qualifying walk-ins logged by engineer `e`. */
  function WalkinsBy(walkins: seq<Walkin>, e: string, sevenDaysAgo: int): nat
  {
    Count(walkins, w => WalkinQualifies(w, sevenDaysAgo) && w.engineerId.value == e)
  }

  lemma TicketsBySnoc(tickets: seq<Ticket>, t: Ticket, sevenDaysAgo: int)
    ensures forall e :: TicketsBy(tickets + [t], e, sevenDaysAgo)
                     == TicketsBy(tickets, e, sevenDaysAgo) + (if TicketQualifies(t, sevenDaysAgo) && t.closedBy.value == e then 1 else 0)
  {
    forall e {
      CountSnoc(tickets, t, x => TicketQualifies(x, sevenDaysAgo) && x.closedBy.value == e);
    }
  }

  lemma WalkinsBySnoc(walkins: seq<Walkin>, w: Walkin, sevenDaysAgo: int)
    ensures forall e :: WalkinsBy(walkins + [w], e, sevenDaysAgo)
                     == WalkinsBy(walkins, e, sevenDaysAgo) + (if WalkinQualifies(w, sevenDaysAgo) && w.engineerId.value == e then 1 else 0)
  {
    forall e {
      CountSnoc(walkins, w, x => WalkinQualifies(x, sevenDaysAgo) && x.engineerId.value == e);
    }
  }

  /** `m` holds, for exactly the engineers with qualifying tickets in `tickets`, their ticket count. */
  ghost predicate TicketTallyOf(m: map<string, Tally>, tickets: seq<Ticket>, sevenDaysAgo: int)
  {
    && (forall e :: e in m <==> TicketsBy(tickets, e, sevenDaysAgo) > 0)
    && (forall e :: e in m ==> m[e] == Tally(TicketsBy(tickets, e, sevenDaysAgo), 0))
  }

  /** `m` holds both counts for exactly the engineers with any qualifying ticket or walk-in. */
  ghost predicate FullTallyOf(m: map<string, Tally>, tickets: seq<Ticket>, walkins: seq<Walkin>, sevenDaysAgo: int)
  {
    && (forall e :: e in m <==> TicketsBy(tickets, e, sevenDaysAgo) + WalkinsBy(walkins, e, sevenDaysAgo) > 0)
    && (forall e :: e in m ==> m[e] == Tally(TicketsBy(tickets, e, sevenDaysAgo), WalkinsBy(walkins, e, sevenDaysAgo)))
  }

  /** What one pass of the first loop's body makes of the tally. */
  function AddTicket(m: map<string, Tally>, t: Ticket, sevenDaysAgo: int): map<string, Tally>
  {
    if !TicketQualifies(t, sevenDaysAgo) then m
    else if t.closedBy.value !in m then m[t.closedBy.value := Tally(1, 0)]
    else m[t.closedBy.value := m[t.closedBy.value].(tickets := m[t.closedBy.value].tickets + 1)]
  }

  /** One pass of the first loop's body keeps the tally exact. */
  lemma TicketTallyStep(m: map<string, Tally>, tickets: seq<Ticket>, i: nat, sevenDaysAgo: int)
    requires i < |tickets|
    requires TicketTallyOf(m, tickets[..i], sevenDaysAgo)
    ensures TicketTallyOf(AddTicket(m, tickets[i], sevenDaysAgo), tickets[..i + 1], sevenDaysAgo)
  {
    var t := tickets[i];
    var m' := AddTicket(m, t, sevenDaysAgo);
    TakeSnoc(tickets, i);
    TicketsBySnoc(tickets[..i], t, sevenDaysAgo);
    forall e
      ensures e in m' <==> TicketsBy(tickets[..i + 1], e, sevenDaysAgo) > 0
      ensures e in m' ==> m'[e] == Tally(TicketsBy(tickets[..i + 1], e, sevenDaysAgo), 0)
    {
      var counted := TicketQualifies(t, sevenDaysAgo) && t.closedBy.value == e;
      assert TicketsBy(tickets[..i + 1], e, sevenDaysAgo) == TicketsBy(tickets[..i], e, sevenDaysAgo) + (if counted then 1 else 0);
      if !counted {
        assert e in m' <==> e in m;
        assert e in m' ==> m'[e] == m[e];
      }
    }
  }

  /** What one pass of the second loop's body makes of the tally. */
  function AddWalkin(m: map<string, Tally>, w: Walkin, sevenDaysAgo: int): map<string, Tally>
  {
    if !WalkinQualifies(w, sevenDaysAgo) then m
    else if w.engineerId.value !in m then m[w.engineerId.value := Tally(0, 1)]
    else m[w.engineerId.value := m[w.engineerId.value].(walkins := m[w.engineerId.value].walkins + 1)]
  }

  /** One pass of the second loop's body keeps the tally exact. */
  lemma WalkinTallyStep(m: map<string, Tally>, tickets: seq<Ticket>, walkins: seq<Walkin>, j: nat, sevenDaysAgo: int)
    requires j < |walkins|
    requires FullTallyOf(m, tickets, walkins[..j], sevenDaysAgo)
    ensures FullTallyOf(AddWalkin(m, walkins[j], sevenDaysAgo), tickets, walkins[..j + 1], sevenDaysAgo)
  {
    var w := walkins[j];
    var m' := AddWalkin(m, w, sevenDaysAgo);
    TakeSnoc(walkins, j);
    WalkinsBySnoc(walkins[..j], w, sevenDaysAgo);
    forall e
      ensures e in m' <==> TicketsBy(tickets, e, sevenDaysAgo) + WalkinsBy(walkins[..j + 1], e, sevenDaysAgo) > 0
      ensures e in m' ==> m'[e] == Tally(TicketsBy(tickets, e, sevenDaysAgo), WalkinsBy(walkins[..j + 1], e, sevenDaysAgo))
    {
      var counted := WalkinQualifies(w, sevenDaysAgo) && w.engineerId.value == e;
      assert WalkinsBy(walkins[..j + 1], e, sevenDaysAgo) == WalkinsBy(walkins[..j], e, sevenDaysAgo) + (if counted then 1 else 0);
      if !counted {
        assert e in m' <==> e in m;
        assert e in m' ==> m'[e] == m[e];
      }
    }
  }

  /** Before the second loop, the ticket tally is the full tally of no walk-ins. */
  lemma NoWalkinsYet(m: map<string, Tally>, tickets: seq<Ticket>, walkins: seq<Walkin>, sevenDaysAgo: int)
    requires TicketTallyOf(m, tickets, sevenDaysAgo)
    ensures FullTallyOf(m, tickets, walkins[..0], sevenDaysAgo)
  {
    assert walkins[..0] == [];
  }

  /** The first `forEach`: an entry per engineer with qualifying tickets, holding their ticket count. */
  method TallyTickets(tickets: seq<Ticket>, sevenDaysAgo: int) returns (engMap: map<string, Tally>)
    ensures forall e :: e in engMap <==> TicketsBy(tickets, e, sevenDaysAgo) > 0
    ensures forall e :: e in engMap ==> engMap[e] == Tally(TicketsBy(tickets, e, sevenDaysAgo), 0)
  {
    engMap := map[];
    var i := 0;
    while i < |tickets|
      invariant 0 <= i <= |tickets|
      invariant TicketTallyOf(engMap, tickets[..i], sevenDaysAgo)
    {
      var t := tickets[i];
      TicketTallyStep(engMap, tickets, i, sevenDaysAgo);
      engMap := CountTicket(engMap, t, sevenDaysAgo);
      i := i + 1;
    }
    assert tickets[..i] == tickets;
  }

  /** The body of the first `forEach`: skip a ticket that does not qualify, else add one to its engineer's tickets. */
  method CountTicket(engMap: map<string, Tally>, t: Ticket, sevenDaysAgo: int) returns (updated: map<string, Tally>)
    ensures updated == AddTicket(engMap, t, sevenDaysAgo)
  {
    updated := engMap;
    if !Truthy(t.closedBy) || !StampTruthy(t.closedAt) {
      return;
    }
    if t.closedAt.value.ms < sevenDaysAgo {
      return;
    }
    var e := t.closedBy.value;
    if e !in updated {
      updated := updated[e := Tally(1, 0)];
    } else {
      updated := updated[e := updated[e].(tickets := updated[e].tickets + 1)];
    }
  }

  /** The body of the second `forEach`: skip a walk-in that does not qualify, else add one to its engineer's walk-ins. */
  method CountWalkin(engMap: map<string, Tally>, w: Walkin, sevenDaysAgo: int) returns (updated: map<string, Tally>)
    ensures updated == AddWalkin(engMap, w, sevenDaysAgo)
  {
    updated := engMap;
    if !Truthy(w.engineerId) || !StampTruthy(w.loggedAt) {
      return;
    }
    if w.loggedAt.value.ms < sevenDaysAgo {
      return;
    }
    var e := w.engineerId.value;
    if e !in updated {
      updated := updated[e := Tally(0, 1)];
    } else {
      updated := updated[e := updated[e].(walkins := updated[e].walkins + 1)];
    }
  }

  /** The second `forEach`: adds each engineer's qualifying walk-ins to the tally the first one built. */
  method TallyWalkins(tickets: seq<Ticket>, walkins: seq<Walkin>, sevenDaysAgo: int, ticketTally: map<string, Tally>)
    returns (engMap: map<string, Tally>)
    requires TicketTallyOf(ticketTally, tickets, sevenDaysAgo)
    ensures forall e :: e in engMap <==> TicketsBy(tickets, e, sevenDaysAgo) + WalkinsBy(walkins, e, sevenDaysAgo) > 0
    ensures forall e :: e in engMap ==>
              engMap[e] == Tally(TicketsBy(tickets, e, sevenDaysAgo), WalkinsBy(walkins, e, sevenDaysAgo))
  {
    engMap := ticketTally;
    var j := 0;
    NoWalkinsYet(ticketTally, tickets, walkins, sevenDaysAgo);
    while j < |walkins|
      invariant 0 <= j <= |walkins|
      invariant FullTallyOf(engMap, tickets, walkins[..j], sevenDaysAgo)
    {
      var w := walkins[j];
      WalkinTallyStep(engMap, tickets, walkins, j, sevenDaysAgo);
      engMap := CountWalkin(engMap, w, sevenDaysAgo);
      j := j + 1;
    }
    assert walkins[..j] == walkins;
  }

  /**
   * The `engMap` tally: the tickets pass, then the walk-ins pass.  The keys
   * are exactly the engineers with qualifying activity, and each entry
   * holds that engineer's two counts, so no entry is all zeros.
   */
  method EngineerPerformance(tickets: seq<Ticket>, walkins: seq<Walkin>, sevenDaysAgo: int)
    returns (engMap: map<string, Tally>)
    ensures forall e :: e in engMap <==> TicketsBy(tickets, e, sevenDaysAgo) + WalkinsBy(walkins, e, sevenDaysAgo) > 0
    ensures forall e :: e in engMap ==>
              engMap[e] == Tally(TicketsBy(tickets, e, sevenDaysAgo), WalkinsBy(walkins, e, sevenDaysAgo))
    ensures forall e :: e in engMap ==> engMap[e].tickets + engMap[e].walkins >= 1
  {
    var ticketTally := TallyTickets(tickets, sevenDaysAgo);
    engMap := TallyWalkins(tickets, walkins, sevenDaysAgo, ticketTally);
  }

  // ---------------------------------------------------------------------
  // The whole ticket-metrics record
  // ---------------------------------------------------------------------

  datatype TicketMetrics = TicketMetrics(
    totalToday: nat,
    closedToday: nat,
    openNow: nat,
    avgTat: real,
    engineerPerformance: map<string, Tally>)

  method ComputeTicketMetrics(tickets: seq<Ticket>, walkins: seq<Walkin>, today: string, sevenDaysAgo: int)
    returns (m: TicketMetrics)
    ensures m.totalToday == |set i | 0 <= i < |tickets| && ReportedToday(tickets[i], today)|
    ensures m.closedToday == |set i | 0 <= i < |tickets| && ClosedToday(tickets[i], today)|
    ensures m.openNow == |set i | 0 <= i < |tickets| && tickets[i].status == "open"|
    ensures m.avgTat == AvgTat(tickets, today)
    ensures m.closedToday == 0 ==> m.avgTat == 0.0
    ensures forall e :: e in m.engineerPerformance <==>
              TicketsBy(tickets, e, sevenDaysAgo) + WalkinsBy(walkins, e, sevenDaysAgo) > 0
    ensures forall e :: e in m.engineerPerformance ==>
              m.engineerPerformance[e] == Tally(TicketsBy(tickets, e, sevenDaysAgo), WalkinsBy(walkins, e, sevenDaysAgo))
  {
    TicketCountsCount(tickets, today);
    var engMap := EngineerPerformance(tickets, walkins, sevenDaysAgo);
    m := TicketMetrics(
      TotalToday(tickets, today),
      ClosedTodayCount(tickets, today),
      OpenNow(tickets),
      AvgTat(tickets, today),
      engMap);
  }

  /**
   * One ticket reported at 10:00 and closed at 11:30 today, and one reported
   * today and still open: two reported, one closed, one open, a 90-minute
   * mean, and the closing engineer credited with one ticket.
   */
  lemma NinetyMinuteScenario()
    ensures var today := "2024-05-01";
            var closed := Ticket("t1", None, None, None, "closed",
                                 Some(Stamp("2024-05-01T10:00:00", 36000000)),
                                 Some(Stamp("2024-05-01T11:30:00", 41400000)),
                                 None, Some("eng-1"));
            var open := Ticket("t2", None, None, None, "open",
                               Some(Stamp("2024-05-01T12:00:00", 43200000)),
                               None, None, None);
            var tickets := [closed, open];
            && TotalToday(tickets, today) == 2
            && ClosedTodayCount(tickets, today) == 1
            && OpenNow(tickets) == 1
            && AvgTat(tickets, today) == 90.0
            && TicketsBy(tickets, "eng-1", 0) == 1
  {
    var today := "2024-05-01";
    var closed := Ticket("t1", None, None, None, "closed",
                         Some(Stamp("2024-05-01T10:00:00", 36000000)),
                         Some(Stamp("2024-05-01T11:30:00", 41400000)),
                         None, Some("eng-1"));
    var open := Ticket("t2", None, None, None, "open",
                       Some(Stamp("2024-05-01T12:00:00", 43200000)),
                       None, None, None);
    var tickets := [closed, open];
    assert tickets[1..] == [open];
    assert Filter(tickets, t => ClosedToday(t, today)) == [closed];
  }
}
