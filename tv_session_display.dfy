/**
 * The TV check-in screen (components/TvSessionDisplay.tsx): the status of a
 * session's check-in window at an instant, and the auto-refresh loop that
 * re-reads the session every 15 seconds within a budget of 16 refreshes.
 * Instants are milliseconds since the epoch; timer callbacks and fetch
 * responses are method calls and their arguments.
 */
module TvSessionDisplay {
  import opened Wrappers

  /** `TvSessionData`, with the ISO instants already read as milliseconds. */
  datatype TvSessionData = TvSessionData(
    id: string,
    seriesId: string,
    seriesName: Option<string>,
    startAt: Option<int>,
    checkinOpenAt: Option<int>,
    checkinCloseAt: Option<int>,
    token: Option<string>,
    serverTime: Option<int>)

  datatype Status = Unknown | Upcoming | Open | Closed

  /** `getStatus(data, now)`: the window [openAt, closeAt] is inclusive at both ends. */
  function GetStatus(data: TvSessionData, now: int): (s: Status)
    ensures s == Unknown <==> data.checkinOpenAt.None? || data.checkinCloseAt.None?
    ensures s == Upcoming <==>
              data.checkinOpenAt.Some? && data.checkinCloseAt.Some? && now < data.checkinOpenAt.value
    ensures s == Closed <==>
              data.checkinOpenAt.Some? && data.checkinCloseAt.Some? &&
              data.checkinOpenAt.value <= now && data.checkinCloseAt.value < now
    ensures s == Open <==>
              data.checkinOpenAt.Some? && data.checkinCloseAt.Some? &&
              data.checkinOpenAt.value <= now <= data.checkinCloseAt.value
  {
    if data.checkinOpenAt.None? || data.checkinCloseAt.None? then Unknown
    else
      var openAt := data.checkinOpenAt.value;
      var closeAt := data.checkinCloseAt.value;
      if now < openAt then Upcoming
      else if now > closeAt then Closed
      else Open
  }

  /** For a well-formed window, exactly one of the three times applies, and both ends are open. */
  lemma WellFormedWindow(data: TvSessionData, openAt: int, closeAt: int, now: int)
    requires data.checkinOpenAt == Some(openAt) && data.checkinCloseAt == Some(closeAt)
    requires openAt <= closeAt
    ensures GetStatus(data, now) == Upcoming <==> now < openAt
    ensures GetStatus(data, now) == Closed <==> now > closeAt
    ensures GetStatus(data, now) == Open <==> openAt <= now <= closeAt
    ensures GetStatus(data, openAt) == Open && GetStatus(data, closeAt) == Open
  {
  }

  /** With the bounds swapped, an instant between them is still UPCOMING: that test comes first. */
  lemma InvertedWindowIsUpcoming(data: TvSessionData, openAt: int, closeAt: int, now: int)
    requires data.checkinOpenAt == Some(openAt) && data.checkinCloseAt == Some(closeAt)
    requires closeAt < now < openAt
    ensures GetStatus(data, now) == Upcoming
  {
  }

  /** Refreshes allowed after mounting or after each resume. */
  const PollBudget: nat := 16

  /**
   * What the fetch of one firing comes to: an ok response with its payload,
   * a response that is not ok, or a rejection (the network fails, or the
   * body of an ok response is not JSON).
   */
  datatype FetchOutcome = Payload(payload: TvSessionData) | NotOk | Rejected

  /** `data`, `pollingActive` and `pollsRemaining`. */
  datatype PollState = PollState(data: TvSessionData, pollingActive: bool, pollsRemaining: int)

  predicate ValidState(s: PollState) {
    0 <= s.pollsRemaining <= PollBudget
  }

  /** A firing that makes a fetch: polling is on and budget is left. */
  predicate Fetching(s: PollState) {
    s.pollingActive && s.pollsRemaining > 0
  }

  /**
   * One firing of the 15-second interval as the component runs it. While
   * polling is paused no interval is installed, so nothing happens. With no
   * budget left the firing only pauses. Otherwise it fetches; a rejected fetch
   * throws out of the callback before the budget is touched, any response
   * keeps or replaces the data, spends one unit and pauses at 0.
   */
  function TickAsWritten(s: PollState, outcome: FetchOutcome): (r: PollState)
    ensures !s.pollingActive ==> r == s
    ensures s.pollingActive && s.pollsRemaining <= 0 ==> r == s.(pollingActive := false)
    ensures Fetching(s) && outcome.Rejected? ==> r == s
    ensures Fetching(s) && !outcome.Rejected? ==>
              r.data == (if outcome.Payload? then outcome.payload else s.data) &&
              r.pollsRemaining == s.pollsRemaining - 1 &&
              r.pollingActive == (r.pollsRemaining > 0)
    ensures s.pollingActive && r.pollsRemaining <= 0 ==> !r.pollingActive
    ensures ValidState(s) ==> ValidState(r)
  {
    if !s.pollingActive then s
    else if s.pollsRemaining <= 0 then s.(pollingActive := false)
    else if outcome.Rejected? then s
    else
      var data := if outcome.Payload? then outcome.payload else s.data;
      var next := Max(s.pollsRemaining - 1, 0);
      PollState(data, next != 0, next)
  }

  /** The firing as intended: a rejected fetch is a failed refresh and spends its unit like any other. */
  function TickSpending(s: PollState, outcome: FetchOutcome): PollState {
    TickAsWritten(s, if outcome.Rejected? then NotOk else outcome)
  }

  /** The state after the firings whose outcomes are `outcomes`, as written. */
  function RunAsWritten(s: PollState, outcomes: seq<FetchOutcome>): PollState
    decreases |outcomes|
  {
    if outcomes == [] then s else RunAsWritten(TickAsWritten(s, outcomes[0]), outcomes[1..])
  }

  /** The number of fetches those firings make, as written. */
  function FetchesAsWritten(s: PollState, outcomes: seq<FetchOutcome>): nat
    decreases |outcomes|
  {
    if outcomes == [] then 0
    else (if Fetching(s) then 1 else 0) + FetchesAsWritten(TickAsWritten(s, outcomes[0]), outcomes[1..])
  }

  /** The number of those fetches that come back with a response, as written. */
  function AnsweredAsWritten(s: PollState, outcomes: seq<FetchOutcome>): nat
    decreases |outcomes|
  {
    if outcomes == [] then 0
    else
      (if Fetching(s) && !outcomes[0].Rejected? then 1 else 0) +
      AnsweredAsWritten(TickAsWritten(s, outcomes[0]), outcomes[1..])
  }

  /** The state after the firings, as intended. */
  function RunSpending(s: PollState, outcomes: seq<FetchOutcome>): PollState
    decreases |outcomes|
  {
    if outcomes == [] then s else RunSpending(TickSpending(s, outcomes[0]), outcomes[1..])
  }

  /** The number of fetches the firings make, as intended. */
  function FetchesSpending(s: PollState, outcomes: seq<FetchOutcome>): nat
    decreases |outcomes|
  {
    if outcomes == [] then 0
    else (if Fetching(s) then 1 else 0) + FetchesSpending(TickSpending(s, outcomes[0]), outcomes[1..])
  }

  /** As written, the fetches that get a response never outnumber the budget. */
  lemma {:induction false} AnsweredWithinBudget(s: PollState, outcomes: seq<FetchOutcome>)
    requires ValidState(s)
    ensures AnsweredAsWritten(s, outcomes) <= s.pollsRemaining
    decreases |outcomes|
  {
    if outcomes != [] {
      AnsweredWithinBudget(TickAsWritten(s, outcomes[0]), outcomes[1..]);
    }
  }

  /** `n` rejected fetches. */
  function Rejections(n: nat): (r: seq<FetchOutcome>)
    ensures |r| == n && forall i :: 0 <= i < n ==> r[i] == Rejected
  {
    seq(n, i => Rejected)
  }

  /** As written, rejected fetches spend nothing: polling never pauses and every firing fetches again. */
  lemma {:induction false} RejectedFetchesNeverPause(s: PollState, n: nat)
    requires Fetching(s)
    ensures RunAsWritten(s, Rejections(n)) == s
    ensures FetchesAsWritten(s, Rejections(n)) == n
  {
    if n > 0 {
      assert Rejections(n)[1..] == Rejections(n - 1);
      RejectedFetchesNeverPause(s, n - 1);
    }
  }

  /** With the network down, one more firing than the budget after a resume still fetches, and polling stays on. */
  lemma RejectedFetchesExceedBudget(data: TvSessionData)
    ensures var s := PollState(data, true, PollBudget);
      FetchesAsWritten(s, Rejections(PollBudget + 1)) == PollBudget + 1 &&
      RunAsWritten(s, Rejections(PollBudget + 1)).pollingActive
  {
    RejectedFetchesNeverPause(PollState(data, true, PollBudget), PollBudget + 1);
  }

  /** As intended, every firing that fetches spends a unit, whatever its outcome. */
  lemma {:induction false} SpendingFetchesWithinBudget(s: PollState, outcomes: seq<FetchOutcome>)
    requires ValidState(s)
    ensures FetchesSpending(s, outcomes) <= s.pollsRemaining
    decreases |outcomes|
  {
    if outcomes != [] {
      SpendingFetchesWithinBudget(TickSpending(s, outcomes[0]), outcomes[1..]);
    }
  }

  /** As intended, polling has paused once there have been more firings than budget left. */
  lemma {:induction false} SpendingPausesAfterBudget(s: PollState, outcomes: seq<FetchOutcome>)
    requires ValidState(s) && |outcomes| > s.pollsRemaining
    ensures !RunSpending(s, outcomes).pollingActive
    decreases |outcomes|
  {
    var t := TickSpending(s, outcomes[0]);
    if !t.pollingActive {
      PausedStaysPaused(t, outcomes[1..]);
    } else {
      SpendingPausesAfterBudget(t, outcomes[1..]);
    }
  }

  lemma {:induction false} PausedStaysPaused(s: PollState, outcomes: seq<FetchOutcome>)
    requires !s.pollingActive
    ensures RunSpending(s, outcomes) == s
    decreases |outcomes|
  {
    if outcomes != [] {
      PausedStaysPaused(s, outcomes[1..]);
    }
  }

  /**
   * The refresh loop's state as the component holds it.
   * `refreshes` counts the fetches answered since mounting or the last resume.
   */
  class AutoRefresh {
    var data: TvSessionData
    var pollingActive: bool
    var pollsRemaining: int
    ghost var refreshes: nat

    function State(): PollState
      reads this
    {
      PollState(data, pollingActive, pollsRemaining)
    }

    /** The budget never goes below 0, and what has been answered plus what remains is the whole budget. */
    ghost predicate Valid()
      reads this
    {
      0 <= pollsRemaining <= PollBudget && refreshes + pollsRemaining == PollBudget
    }

    /** Mounting the component: polling on, full budget. */
    constructor (initialData: TvSessionData)
      ensures Valid()
      ensures data == initialData && pollingActive && pollsRemaining == PollBudget && refreshes == 0
    {
      data := initialData;
      pollingActive := true;
      pollsRemaining := PollBudget;
      refreshes := 0;
    }

    /** One firing of the 15-second interval whose fetch comes to `outcome`. */
    method Tick(outcome: FetchOutcome) returns (fetched: bool)
      requires Valid()
      modifies this
      ensures Valid()
      ensures State() == TickAsWritten(old(State()), outcome)
      ensures fetched == Fetching(old(State()))
      ensures refreshes == old(refreshes) + (if fetched && !outcome.Rejected? then 1 else 0)
      ensures refreshes <= PollBudget
    {
      fetched := false;
      if !pollingActive {
        return;
      }
      if pollsRemaining <= 0 {
        pollingActive := false;
        return;
      }
      fetched := true;
      if outcome.Rejected? {
        return;
      }
      if outcome.Payload? {
        data := outcome.payload;
      }
      var next := Max(pollsRemaining - 1, 0);
      if next == 0 {
        pollingActive := false;
      }
      pollsRemaining := next;
      refreshes := refreshes + 1;
    }

    /** The "Resume updates" button, shown only while polling is paused: full budget again, polling on. */
    method Resume()
      requires Valid()
      requires !pollingActive
      modifies this
      ensures Valid()
      ensures pollsRemaining == PollBudget && pollingActive && refreshes == 0
      ensures data == old(data)
    {
      pollsRemaining := PollBudget;
      pollingActive := true;
      refreshes := 0;
    }
  }
}
