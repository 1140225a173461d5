/** The watchdog daemon of the Arduino Portenta: it feeds a hardware watchdog until the network has been
    unreachable for too long, and then stops for good so that the board resets. */
module Watchdog {
  import opened Wrappers

  datatype Options = Options(feedSec: int, checkSec: int, offlineRebootSec: int, retrySec: int, noWatchdog: bool)

  /** What `parse_options` lets through. */
  predicate ValidOptions(o: Options) {
    0 < o.feedSec < o.offlineRebootSec && 0 < o.checkSec && 0 < o.retrySec
  }

  /** `offlineSince` is 0 while the network is not known to be offline. */
  datatype State = State(fdOpen: bool, feedingEnabled: bool, nextFeed: int, nextCheck: int, nextOpen: int,
      offlineSince: int)

  /** What the outside world answers during one turn of the loop; `later` is the clock after the network
      check. */
  datatype Turn = Turn(now: int, openOk: bool, firstFeedOk: bool, feedOk: bool, networkOk: bool, later: int)

  datatype CheckMade = CheckMade(at: int, ok: bool)

  /** What the daemon asks of the world, with the answer; a check with the time it ended. */
  datatype Call = Open(ok: bool) | Feed(ok: bool) | Check(made: CheckMade)

  /** What one turn leaves: the variables, and the calls made in order. */
  datatype Outcome = Outcome(state: State, calls: seq<Call>)

  /** Opening the device, with the feed that follows a successful open. */
  function TryOpen(o: Options, s: State, t: Turn): Outcome {
    if o.noWatchdog || s.fdOpen || t.now < s.nextOpen then Outcome(s, [])
    else if !t.openOk then Outcome(s.(nextOpen := t.now + o.retrySec), [Open(false)])
    else if !s.feedingEnabled then Outcome(s.(fdOpen := true), [Open(true)])
    else if t.firstFeedOk then Outcome(s.(fdOpen := true, nextFeed := t.now + o.feedSec), [Open(true), Feed(true)])
    else Outcome(s.(nextOpen := t.now + o.retrySec), [Open(true), Feed(false)])
  }

  predicate FeedDue(s: State, t: Turn) {
    s.feedingEnabled && s.fdOpen && t.now >= s.nextFeed
  }

  /** The network check. */
  function TryCheck(o: Options, s: State, t: Turn): Outcome {
    if t.now < s.nextCheck then Outcome(s, [])
    else
      var since := if t.networkOk then 0 else if s.offlineSince == 0 then t.later else s.offlineSince;
      var fired := !t.networkOk && t.later - since >= o.offlineRebootSec;
      var next := s.(offlineSince := since, feedingEnabled := s.feedingEnabled && !fired,
        nextCheck := t.later + o.checkSec);
      Outcome(next, [Check(CheckMade(t.later, t.networkOk))])
  }

  /** One turn of the loop in `run_daemon`. */
  function Iterate(o: Options, s: State, t: Turn): Outcome {
    var first := TryOpen(o, s, t);
    var s1 := first.state;
    if FeedDue(s1, t) && !t.feedOk then
      Outcome(s1.(fdOpen := false, nextOpen := t.now + o.retrySec), first.calls + [Feed(false)])
    else
      var s2 := if FeedDue(s1, t) then s1.(nextFeed := t.now + o.feedSec) else s1;
      var last := TryCheck(o, s2, t);
      Outcome(last.state, first.calls + (if FeedDue(s1, t) then [Feed(true)] else []) + last.calls)
  }

  /** The local variables of `run_daemon`. */
  class Daemon {
    const o: Options
    var fdOpen: bool
    var feedingEnabled: bool
    var nextFeed: int
    var nextCheck: int
    var nextOpen: int
    var offlineSince: int

    function View(): State
      reads this
    {
      State(fdOpen, feedingEnabled, nextFeed, nextCheck, nextOpen, offlineSince)
    }

    constructor (o: Options, t0: int, t1: int, t2: int)
      ensures this.o == o && View() == State(false, true, t0, t1, t2, 0)
    {
      this.o := o;
      fdOpen, feedingEnabled, nextFeed, nextCheck, nextOpen, offlineSince := false, true, t0, t1, t2, 0;
    }

    /** The loop's first part: opening the device, and the feed that follows. */
    method OpenDevice(t: Turn) returns (calls: seq<Call>)
      modifies this
      ensures Outcome(View(), calls) == TryOpen(o, old(View()), t)
    {
      calls := [];
      if !o.noWatchdog && !fdOpen && t.now >= nextOpen {
        fdOpen := t.openOk;
        calls := [Open(t.openOk)];
        if fdOpen {
          if feedingEnabled {
            calls := calls + [Feed(t.firstFeedOk)];
            if t.firstFeedOk {
              nextFeed := t.now + o.feedSec;
            } else {
              fdOpen := false;
              nextOpen := t.now + o.retrySec;
            }
          }
        } else {
          nextOpen := t.now + o.retrySec;
        }
      }
    }

    /** Its last part: the network check. */
    method CheckNetwork(t: Turn) returns (calls: seq<Call>)
      modifies this
      ensures Outcome(View(), calls) == TryCheck(o, old(View()), t)
    {
      calls := [];
      if t.now >= nextCheck {
        calls := [Check(CheckMade(t.later, t.networkOk))];
        if t.networkOk {
          offlineSince := 0;
        } else {
          if offlineSince == 0 {
            offlineSince := t.later;
          }
          if t.later - offlineSince >= o.offlineRebootSec {
            feedingEnabled := false;
          }
        }
        nextCheck := t.later + o.checkSec;
      }
    }

    /** One turn of the loop. */
    method RunTurn(t: Turn) returns (calls: seq<Call>)
      modifies this
      ensures Outcome(View(), calls) == Iterate(o, old(View()), t)
    {
      hide TryOpen, TryCheck;
      calls := OpenDevice(t);
      if feedingEnabled && fdOpen && t.now >= nextFeed {
        calls := calls + [Feed(t.feedOk)];
        if !t.feedOk {
          fdOpen := false;
          nextOpen := t.now + o.retrySec;
          return;
        }
        nextFeed := t.now + o.feedSec;
      }
      var more := CheckNetwork(t);
      calls := calls + more;
    }
  }

  /******* Runs *******/

  /** A daemon with what its calls tell of the past: whether the device is open, the last failed open or feed,
      the last successful feed, and all network checks; the clock, and the start of the last turn. */
  datatype World = World(state: State, isOpen: bool, lastFailure: Option<int>, lastFeed: Option<int>,
      checks: seq<CheckMade>, clock: int, lastTurn: Option<int>)

  /** A successful open or feed leaves the device open, a failed one closed. */
  function OpenedBy(isOpen: bool, calls: seq<Call>): bool
    decreases |calls|
  {
    if calls == [] then isOpen
    else OpenedBy(if calls[0].Check? then isOpen else calls[0].ok, calls[1..])
  }

  function ChecksIn(calls: seq<Call>): seq<CheckMade> {
    if calls == [] then [] else (if calls[0].Check? then [calls[0].made] else []) + ChecksIn(calls[1..])
  }

  function After(o: Options, w: World, t: Turn): World {
    var r := Iterate(o, w.state, t);
    World(r.state, OpenedBy(w.isOpen, r.calls),
          if Open(false) in r.calls || Feed(false) in r.calls then Some(t.now) else w.lastFailure,
          if Feed(true) in r.calls then Some(t.now) else w.lastFeed,
          w.checks + ChecksIn(r.calls), t.later, Some(t.now))
  }

  /** The clock never runs backwards. */
  predicate ValidTurn(w: World, t: Turn) {
    w.clock <= t.now <= t.later
  }

  /** The variables before the loop: the three times are readings of the clock. */
  predicate Initial(w: World) {
    && !w.state.fdOpen && w.state.feedingEnabled && w.state.offlineSince == 0
    && w.state.nextFeed <= w.clock && w.state.nextCheck <= w.clock && w.state.nextOpen <= w.clock
    && !w.isOpen && w.lastFailure.None? && w.lastFeed.None? && w.checks == [] && w.lastTurn.None? && 0 < w.clock
  }

  /** Every check from the `k`-th to the `j`-th failed, over at least the reboot window. */
  ghost predicate OfflineWindow(o: Options, checks: seq<CheckMade>, k: int, j: int) {
    && 0 <= k <= j < |checks| && (forall i :: k <= i <= j ==> !checks[i].ok)
    && checks[j].at - checks[k].at >= o.offlineRebootSec
  }

  ghost predicate WasOffline(o: Options, checks: seq<CheckMade>) {
    exists k, j :: OfflineWindow(o, checks, k, j)
  }

  /** The failing stretch that ends the checks starts at `k`. */
  ghost predicate StretchStarts(checks: seq<CheckMade>, k: int) {
    && 0 <= k < |checks| && (forall i :: k <= i < |checks| ==> !checks[i].ok) && (k > 0 ==> checks[k - 1].ok)
  }

  ghost predicate OfflineKnown(s: State, checks: seq<CheckMade>) {
    if s.offlineSince == 0 then checks == [] || checks[|checks| - 1].ok
    else exists k :: StretchStarts(checks, k) && checks[k].at == s.offlineSince
  }

  ghost predicate InOrder(checks: seq<CheckMade>, clock: int) {
    && (forall i :: 0 <= i < |checks| ==> 0 < checks[i].at <= clock)
    && (forall i, j :: 0 <= i <= j < |checks| ==> checks[i].at <= checks[j].at)
  }

  ghost predicate FeedKept(o: Options, w: World) {
    w.state.fdOpen && w.state.feedingEnabled ==>
      && w.lastFeed.Some? && w.state.nextFeed == w.lastFeed.value + o.feedSec
      && w.lastTurn.Some? && w.lastTurn.value < w.state.nextFeed
  }

  /** What the times to come are, in terms of the past. */
  ghost predicate TimesKept(o: Options, w: World) {
    && w.state.fdOpen == w.isOpen
    && (if w.lastFailure.None? then w.state.nextOpen <= w.clock
        else w.state.nextOpen == w.lastFailure.value + o.retrySec)
    && (if w.checks == [] then w.state.nextCheck <= w.clock
        else w.state.nextCheck == w.checks[|w.checks| - 1].at + o.checkSec)
  }

  ghost predicate Inv(o: Options, w: World) {
    && 0 < w.clock && InOrder(w.checks, w.clock) && OfflineKnown(w.state, w.checks)
    && (!w.state.feedingEnabled <==> WasOffline(o, w.checks))
    && FeedKept(o, w) && TimesKept(o, w)
  }

  lemma {:induction false} InitialInv(o: Options, w: World)
    requires ValidOptions(o) && Initial(w)
    ensures Inv(o, w)
  {
  }

  /** The calls of a turn in the order they are made. */
  lemma TurnCalls(o: Options, s: State, t: Turn)
    ensures var r, first := Iterate(o, s, t), TryOpen(o, s, t);
      var due := FeedDue(first.state, t);
      var checks := !(due && !t.feedOk) && t.now >= s.nextCheck;
      && r.calls == first.calls + (if due then [Feed(t.feedOk)] else [])
                    + (if checks then [Check(CheckMade(t.later, t.networkOk))] else [])
      && ChecksIn(r.calls) == (if checks then [CheckMade(t.later, t.networkOk)] else [])
  {
    hide ChecksIn;
    var first := TryOpen(o, s, t);
    var feed: seq<Call> := if FeedDue(first.state, t) then [Feed(t.feedOk)] else [];
    var before, made := first.calls + feed, CheckMade(t.later, t.networkOk);
    NoChecks(before);
    OneCheck(before, made);
    assert before + [] == before;
  }

  lemma OneCheck(before: seq<Call>, made: CheckMade)
    requires ChecksIn(before) == []
    ensures ChecksIn(before + [Check(made)]) == [made]
  {
    ChecksAppend(before, [Check(made)]);
    assert [Check(made)][1..] == [];
  }

  lemma {:induction false} ChecksAppend(a: seq<Call>, b: seq<Call>)
    ensures ChecksIn(a + b) == ChecksIn(a) + ChecksIn(b)
    decreases |a|
  {
    if a == [] {
      assert a + b == b;
    } else {
      var head := if a[0].Check? then [a[0].made] else [];
      assert (a + b)[1..] == a[1..] + b && (a + b)[0] == a[0];
      ChecksAppend(a[1..], b);
      assert ChecksIn(a + b) == head + ChecksIn(a[1..] + b);
      assert head + (ChecksIn(a[1..]) + ChecksIn(b)) == head + ChecksIn(a[1..]) + ChecksIn(b);
    }
  }

  lemma {:induction false} NoChecks(calls: seq<Call>)
    requires forall c :: c in calls ==> !c.Check?
    ensures ChecksIn(calls) == []
    decreases |calls|
  {
    if calls != [] {
      NoChecks(calls[1..]);
    }
  }

  /** What one turn does to the network side. */
  lemma TurnOfChecks(o: Options, s: State, t: Turn)
    ensures var r := Iterate(o, s, t);
      var made := ChecksIn(r.calls);
      if made == [] then r.state.offlineSince == s.offlineSince && r.state.feedingEnabled == s.feedingEnabled
      else
        && made == [CheckMade(t.later, t.networkOk)]
        && r.state.offlineSince == (if t.networkOk then 0 else if s.offlineSince == 0 then t.later else s.offlineSince)
        && r.state.feedingEnabled
           == (s.feedingEnabled && !(!t.networkOk && t.later - r.state.offlineSince >= o.offlineRebootSec))
  {
    TurnCalls(o, s, t);
    hide ChecksIn;
  }

  /** The checks made so far, the timer and the latch stay tied to each other. */
  lemma NetworkSide(o: Options, w: World, t: Turn)
    requires ValidOptions(o) && Inv(o, w) && ValidTurn(w, t)
    ensures var w' := After(o, w, t);
      && InOrder(w'.checks, w'.clock) && OfflineKnown(w'.state, w'.checks)
      && (!w'.state.feedingEnabled <==> WasOffline(o, w'.checks))
  {
    hide Iterate, WasOffline, FeedKept, TimesKept, ChecksIn, OpenedBy;
    TurnOfChecks(o, w.state, t);
    var r := Iterate(o, w.state, t);
    if ChecksIn(r.calls) == [] {
      assert After(o, w, t).checks == w.checks;
    } else {
      hide OfflineKnown, InOrder;
      OneMoreCheck(o, w.state, w.checks, w.clock, ChecksIn(r.calls)[0], r.state);
    }
  }

  lemma CheckInOrder(checks: seq<CheckMade>, clock: int, c: CheckMade)
    requires 0 < clock <= c.at && InOrder(checks, clock)
    ensures InOrder(checks + [c], c.at)
  {
  }

  /** The failing stretch after one more failed check. */
  lemma StretchGrows(s: State, checks: seq<CheckMade>, c: CheckMade) returns (k: int)
    requires OfflineKnown(s, checks) && !c.ok
    ensures StretchStarts(checks + [c], k)
    ensures (checks + [c])[k].at == if s.offlineSince == 0 then c.at else s.offlineSince
  {
    if s.offlineSince == 0 {
      k := |checks|;
    } else {
      k :| StretchStarts(checks, k) && checks[k].at == s.offlineSince;
    }
  }

  /** A window that ends with the last check lies inside the failing stretch. */
  lemma WindowInStretch(o: Options, checks: seq<CheckMade>, clock: int, k: int, n: nat)
    requires |checks| == n + 1 && InOrder(checks, clock) && StretchStarts(checks, k)
    ensures (exists j :: OfflineWindow(o, checks, j, n)) <==> checks[n].at - checks[k].at >= o.offlineRebootSec
  {
    if checks[n].at - checks[k].at >= o.offlineRebootSec {
      assert OfflineWindow(o, checks, k, n);
    }
    forall j | OfflineWindow(o, checks, j, n) ensures checks[n].at - checks[k].at >= o.offlineRebootSec {
      assert k > 0 ==> checks[k - 1].ok;
      assert k <= j;
      assert checks[k].at <= checks[j].at;
    }
  }

  lemma OneMoreCheck(o: Options, s: State, checks: seq<CheckMade>, clock: int, c: CheckMade, s': State)
    requires ValidOptions(o) && 0 < clock <= c.at && InOrder(checks, clock) && OfflineKnown(s, checks)
    requires !s.feedingEnabled <==> WasOffline(o, checks)
    requires s'.offlineSince == if c.ok then 0 else if s.offlineSince == 0 then c.at else s.offlineSince
    requires s'.feedingEnabled == (s.feedingEnabled && !(!c.ok && c.at - s'.offlineSince >= o.offlineRebootSec))
    ensures InOrder(checks + [c], c.at) && OfflineKnown(s', checks + [c])
    ensures !s'.feedingEnabled <==> WasOffline(o, checks + [c])
  {
    hide InOrder, WasOffline, StretchStarts;
    var n, all := |checks|, checks + [c];
    CheckInOrder(checks, clock, c);
    WindowsWithOneMore(o, checks, c);
    if c.ok {
      assert forall k :: !OfflineWindow(o, all, k, n);
    } else {
      var k := StretchGrows(s, checks, c);
      hide OfflineWindow;
      WindowInStretch(o, all, c.at, k, n);
      assert s'.offlineSince == all[k].at;
      assert s'.offlineSince != 0 by { AfterZero(all, c.at, k); }
    }
  }

  lemma AfterZero(checks: seq<CheckMade>, clock: int, k: int)
    requires InOrder(checks, clock) && StretchStarts(checks, k)
    ensures checks[k].at != 0
  {
  }

  /** A window of failed checks is an old one or one that ends with the new check. */
  lemma WindowsWithOneMore(o: Options, checks: seq<CheckMade>, c: CheckMade)
    ensures var all := checks + [c];
      WasOffline(o, all) <==> WasOffline(o, checks) || exists k :: OfflineWindow(o, all, k, |checks|)
  {
    var all := checks + [c];
    if WasOffline(o, checks) {
      var k, j :| OfflineWindow(o, checks, k, j);
      assert OfflineWindow(o, all, k, j);
    }
    if WasOffline(o, all) {
      var k, j :| OfflineWindow(o, all, k, j);
      if j < |checks| {
        assert forall i :: 0 <= i < |checks| ==> checks[i] == all[i];
        assert OfflineWindow(o, checks, k, j);
      }
    }
  }

  lemma {:induction false} OpenedAppend(isOpen: bool, a: seq<Call>, b: seq<Call>)
    ensures OpenedBy(isOpen, a + b) == OpenedBy(OpenedBy(isOpen, a), b)
    decreases |a|
  {
    if a == [] {
      assert a + b == b;
    } else {
      assert (a + b)[1..] == a[1..] + b;
      OpenedAppend(if a[0].Check? then isOpen else a[0].ok, a[1..], b);
    }
  }

  lemma OpenedByOne(isOpen: bool, c: Call)
    ensures OpenedBy(isOpen, [c]) == if c.Check? then isOpen else c.ok
  {
    assert [c][1..] == [];
  }

  /** The device is open exactly when the calls say so. */
  lemma TurnOpens(o: Options, s: State, t: Turn)
    ensures Iterate(o, s, t).state.fdOpen == OpenedBy(s.fdOpen, Iterate(o, s, t).calls)
  {
    TurnCalls(o, s, t);
    var first := TryOpen(o, s, t);
    FirstOpens(o, s, t);
    var feed := if FeedDue(first.state, t) then [Feed(t.feedOk)] else [];
    var check: seq<Call> := if !(FeedDue(first.state, t) && !t.feedOk) && t.now >= s.nextCheck
                            then [Check(CheckMade(t.later, t.networkOk))] else [];
    OpenedAppend(s.fdOpen, first.calls, feed);
    OpenedAppend(s.fdOpen, first.calls + feed, check);
    OpenedByOne(first.state.fdOpen, Feed(t.feedOk));
    OpenedByOne(OpenedBy(s.fdOpen, first.calls + feed), Check(CheckMade(t.later, t.networkOk)));
  }

  lemma FirstOpens(o: Options, s: State, t: Turn)
    ensures TryOpen(o, s, t).state.fdOpen == OpenedBy(s.fdOpen, TryOpen(o, s, t).calls)
  {
    OpenedByOne(s.fdOpen, Open(t.openOk));
    OpenedAppend(s.fdOpen, [Open(true)], [Feed(t.firstFeedOk)]);
    OpenedByOne(true, Feed(t.firstFeedOk));
    assert [Open(true)] + [Feed(t.firstFeedOk)] == [Open(true), Feed(t.firstFeedOk)];
  }

  predicate Failed(calls: seq<Call>) {
    Open(false) in calls || Feed(false) in calls
  }

  lemma FailedAppend(a: seq<Call>, b: seq<Call>)
    ensures Failed(a + b) <==> Failed(a) || Failed(b)
  {
  }

  lemma FailedOne(c: Call)
    ensures !Failed([]) && (Failed([c]) <==> c == Open(false) || c == Feed(false))
  {
  }

  lemma FirstRetry(o: Options, s: State, t: Turn)
    ensures var r := TryOpen(o, s, t);
      && r.state.nextOpen == (if Failed(r.calls) then t.now + o.retrySec else s.nextOpen)
      && r.state.nextCheck == s.nextCheck
  {
  }

  /** The time of the next attempt is put off exactly by a failed call. */
  lemma TurnRetry(o: Options, s: State, t: Turn)
    ensures var r := Iterate(o, s, t);
      r.state.nextOpen == if Failed(r.calls) then t.now + o.retrySec else s.nextOpen
  {
    hide TryOpen, Failed;
    FirstRetry(o, s, t);
    TurnCalls(o, s, t);
    var first := TryOpen(o, s, t);
    var feed: seq<Call> := if FeedDue(first.state, t) then [Feed(t.feedOk)] else [];
    var check: seq<Call> := if !(FeedDue(first.state, t) && !t.feedOk) && t.now >= s.nextCheck
                            then [Check(CheckMade(t.later, t.networkOk))] else [];
    FailedAppend(first.calls, feed);
    FailedAppend(first.calls + feed, check);
    FailedOne(Feed(t.feedOk));
    FailedOne(Check(CheckMade(t.later, t.networkOk)));
  }

  /** The time of the next check is put off exactly by a check. */
  lemma TurnCheck(o: Options, s: State, t: Turn)
    ensures var r := Iterate(o, s, t);
      r.state.nextCheck == if ChecksIn(r.calls) == [] then s.nextCheck else t.later + o.checkSec
  {
    hide TryOpen, ChecksIn;
    FirstRetry(o, s, t);
    TurnCalls(o, s, t);
  }

  lemma TimesSide(o: Options, w: World, t: Turn)
    requires ValidOptions(o) && Inv(o, w) && ValidTurn(w, t)
    ensures TimesKept(o, After(o, w, t))
  {
    hide WasOffline, OfflineKnown, InOrder, ChecksIn, OpenedBy, Iterate, TryOpen;
    TurnCalls(o, w.state, t);
    TurnOpens(o, w.state, t);
    TurnRetry(o, w.state, t);
    TurnCheck(o, w.state, t);
  }

  lemma FeedSide(o: Options, w: World, t: Turn)
    requires ValidOptions(o) && Inv(o, w) && ValidTurn(w, t)
    ensures FeedKept(o, After(o, w, t))
  {
    hide WasOffline, OfflineKnown, InOrder, ChecksIn, OpenedBy;
    TurnCalls(o, w.state, t);
  }

  lemma TurnKeepsInvariant(o: Options, w: World, t: Turn)
    requires ValidOptions(o) && Inv(o, w) && ValidTurn(w, t)
    ensures Inv(o, After(o, w, t))
  {
    hide WasOffline, OfflineKnown, InOrder, ChecksIn, OpenedBy, Iterate, FeedKept, TimesKept;
    NetworkSide(o, w, t);
    FeedSide(o, w, t);
    TimesSide(o, w, t);
  }

  ghost predicate ValidRun(o: Options, w: World, turns: seq<Turn>)
    decreases |turns|
  {
    turns == [] || (ValidTurn(w, turns[0]) && ValidRun(o, After(o, w, turns[0]), turns[1..]))
  }

  ghost function AfterAll(o: Options, w: World, turns: seq<Turn>): World
    decreases |turns|
  {
    if turns == [] then w else AfterAll(o, After(o, w, turns[0]), turns[1..])
  }

  lemma {:induction false} RunKeepsInvariant(o: Options, w: World, turns: seq<Turn>)
    requires ValidOptions(o) && Inv(o, w) && ValidRun(o, w, turns)
    ensures Inv(o, AfterAll(o, w, turns))
    decreases |turns|
  {
    if turns != [] {
      TurnKeepsInvariant(o, w, turns[0]);
      hide Inv, After, ValidTurn;
      RunKeepsInvariant(o, After(o, w, turns[0]), turns[1..]);
    }
  }

  /** On every run feeding is off exactly when at some point all network checks over at least the
      reboot window had failed. */
  lemma FeedingStopsIffOffline(o: Options, w: World, turns: seq<Turn>)
    requires ValidOptions(o) && Initial(w) && ValidRun(o, w, turns)
    ensures var v := AfterAll(o, w, turns); !v.state.feedingEnabled <==> WasOffline(o, v.checks)
  {
    InitialInv(o, w);
    RunKeepsInvariant(o, w, turns);
  }

  lemma OffStaysOff(o: Options, w: World, t: Turn)
    requires !w.state.feedingEnabled
    ensures !After(o, w, t).state.feedingEnabled && After(o, w, t).lastFeed == w.lastFeed
    ensures forall ok :: Feed(ok) !in Iterate(o, w.state, t).calls
  {
    hide ChecksIn, OpenedBy;
    TurnCalls(o, w.state, t);
  }

  /** Once off, feeding never resumes: not after the network recovers, not after the device is reopened. */
  lemma {:induction false} FeedingNeverResumes(o: Options, w: World, turns: seq<Turn>)
    requires !w.state.feedingEnabled
    ensures !AfterAll(o, w, turns).state.feedingEnabled && AfterAll(o, w, turns).lastFeed == w.lastFeed
    decreases |turns|
  {
    hide After;
    if turns != [] {
      OffStaysOff(o, w, turns[0]);
      FeedingNeverResumes(o, After(o, w, turns[0]), turns[1..]);
    }
  }

  /******* What a turn does, told by the past *******/

  /** Whether an open is due: the watchdog is wanted, the device is closed, and no attempt failed within the
      retry time. */
  predicate OpenIsDue(o: Options, w: World, t: Turn) {
    !o.noWatchdog && !w.isOpen && (w.lastFailure.None? || t.now - w.lastFailure.value >= o.retrySec)
  }

  /** Whether a feed is due: the device is open, feeding is on, and the last feed is a feed interval old. */
  predicate FeedIsDue(o: Options, w: World, t: Turn, offline: bool) {
    w.isOpen && !offline && w.lastFeed.Some? && t.now - w.lastFeed.value >= o.feedSec
  }

  /** Whether a check is due: none was made yet, or the last one is a check interval old. */
  predicate CheckIsDue(o: Options, w: World, t: Turn) {
    w.checks == [] || t.now - w.checks[|w.checks| - 1].at >= o.checkSec
  }

  /** The calls of a turn, in order, told by the past alone. */
  function CallsDue(o: Options, w: World, t: Turn, offline: bool): seq<Call> {
    var feeds := FeedIsDue(o, w, t, offline);
    (if !OpenIsDue(o, w, t) then []
     else if t.openOk && !offline then [Open(true), Feed(t.firstFeedOk)]
     else [Open(t.openOk)])
    + (if feeds then [Feed(t.feedOk)] else [])
    + (if (feeds && !t.feedOk) || !CheckIsDue(o, w, t) then [] else [Check(CheckMade(t.later, t.networkOk))])
  }

  /** On every run, each turn makes exactly the calls that are due. */
  lemma CallsAreDue(o: Options, w: World, turns: seq<Turn>, t: Turn, offline: bool)
    requires ValidOptions(o) && Initial(w) && ValidRun(o, w, turns) && ValidTurn(AfterAll(o, w, turns), t)
    requires offline == WasOffline(o, AfterAll(o, w, turns).checks)
    ensures var v := AfterAll(o, w, turns); Iterate(o, v.state, t).calls == CallsDue(o, v, t, offline)
  {
    hide WasOffline, OfflineKnown, InOrder, ChecksIn, OpenedBy, AfterAll, ValidRun;
    assert Inv(o, w) by { InitialInv(o, w); }
    RunKeepsInvariant(o, w, turns);
    var v := AfterAll(o, w, turns);
    DueNow(o, v, t, offline);
  }

  lemma DueNow(o: Options, v: World, t: Turn, offline: bool)
    requires ValidOptions(o) && Inv(o, v) && ValidTurn(v, t) && offline == WasOffline(o, v.checks)
    ensures Iterate(o, v.state, t).calls == CallsDue(o, v, t, offline)
  {
    hide WasOffline, OfflineKnown, InOrder, ChecksIn, OpenedBy;
    TurnCalls(o, v.state, t);
  }

  /** When the device is closed and an open is due it is tried; if it and the first feed succeed, the turn ends
      with the device open and a feed made. */
  lemma OpensWhenDue(o: Options, w: World, turns: seq<Turn>, t: Turn)
    requires ValidOptions(o) && Initial(w) && ValidRun(o, w, turns) && ValidTurn(AfterAll(o, w, turns), t)
    ensures var v := AfterAll(o, w, turns);
      var v' := After(o, v, t);
      && ((exists ok :: Open(ok) in Iterate(o, v.state, t).calls) <==>
            !o.noWatchdog && !v.isOpen && (v.lastFailure.None? || t.now - v.lastFailure.value >= o.retrySec))
      && (Open(true) in Iterate(o, v.state, t).calls && !WasOffline(o, v.checks) && t.firstFeedOk ==>
            v'.isOpen && v'.lastFeed == Some(t.now))
  {
    hide WasOffline, Iterate, AfterAll, ValidRun, ChecksIn, OpenedBy, CallsDue;
    var v := AfterAll(o, w, turns);
    var offline := WasOffline(o, v.checks);
    CallsAreDue(o, w, turns, t, offline);
    DueOpens(o, v, t, offline);
    if Open(true) in CallsDue(o, v, t, offline) && !offline && t.firstFeedOk {
      DueSucceeds(o, v, t);
    }
  }

  lemma DueOpens(o: Options, v: World, t: Turn, offline: bool)
    ensures (exists ok :: Open(ok) in CallsDue(o, v, t, offline)) <==> OpenIsDue(o, v, t)
    ensures Open(true) in CallsDue(o, v, t, offline) ==> OpenIsDue(o, v, t) && t.openOk
  {
    if OpenIsDue(o, v, t) {
      assert CallsDue(o, v, t, offline)[0] == Open(t.openOk);
    }
  }

  lemma DueSucceeds(o: Options, v: World, t: Turn)
    requires OpenIsDue(o, v, t) && t.openOk && t.firstFeedOk
    ensures var calls := CallsDue(o, v, t, false); OpenedBy(v.isOpen, calls) && Feed(true) in calls
  {
    hide OpenedBy;
    var calls := CallsDue(o, v, t, false);
    var rest: seq<Call> := if CheckIsDue(o, v, t) then [Check(CheckMade(t.later, t.networkOk))] else [];
    assert calls == [Open(true), Feed(true)] + rest && calls[1] == Feed(true);
    OpenedAppend(v.isOpen, [Open(true), Feed(true)], rest);
    TwoSucceed(v.isOpen, rest);
  }

  lemma TwoSucceed(isOpen: bool, rest: seq<Call>)
    requires forall c :: c in rest ==> c.Check?
    ensures OpenedBy(OpenedBy(isOpen, [Open(true), Feed(true)]), rest)
  {
    assert [Open(true), Feed(true)][1..] == [Feed(true)];
    OpenedByOne(true, Feed(true));
    ChecksKeepOpen(true, rest);
  }

  lemma {:induction false} ChecksKeepOpen(isOpen: bool, calls: seq<Call>)
    requires forall c :: c in calls ==> c.Check?
    ensures OpenedBy(isOpen, calls) == isOpen
    decreases |calls|
  {
    if calls != [] {
      ChecksKeepOpen(isOpen, calls[1..]);
    }
  }

  /** A turn that gets past the feed checks the network exactly when no check was made yet or the last one is a
      check interval old. */
  lemma ChecksWhenDue(o: Options, w: World, turns: seq<Turn>, t: Turn)
    requires ValidOptions(o) && Initial(w) && ValidRun(o, w, turns) && ValidTurn(AfterAll(o, w, turns), t)
    ensures var v := AfterAll(o, w, turns);
      var calls := Iterate(o, v.state, t).calls;
      var stopped := FeedIsDue(o, v, t, WasOffline(o, v.checks)) && !t.feedOk;
      Check(CheckMade(t.later, t.networkOk)) in calls
      <==> !stopped && (v.checks == [] || t.now - v.checks[|v.checks| - 1].at >= o.checkSec)
  {
    hide WasOffline, Iterate, AfterAll, ValidRun, ChecksIn;
    var v := AfterAll(o, w, turns);
    CallsAreDue(o, w, turns, t, WasOffline(o, v.checks));
  }

  /** On every run, when a turn starts with the device open and feeding on, the last successful feed is
      younger than the feed interval plus the time since the previous turn started; and it is made up
      for in this turn if it is due. */
  lemma FeedIsNeverLate(o: Options, w: World, turns: seq<Turn>, t: Turn, longest: int)
    requires ValidOptions(o) && Initial(w) && ValidRun(o, w, turns)
    requires ValidTurn(AfterAll(o, w, turns), t)
    requires AfterAll(o, w, turns).isOpen && !WasOffline(o, AfterAll(o, w, turns).checks)
    requires var last := AfterAll(o, w, turns).lastTurn; last.Some? ==> t.now - last.value <= longest
    ensures var v := AfterAll(o, w, turns);
      && v.lastFeed.Some? && t.now - v.lastFeed.value < o.feedSec + longest
      && (Feed(true) in Iterate(o, v.state, t).calls <==> t.now - v.lastFeed.value >= o.feedSec && t.feedOk)
  {
    hide WasOffline, Iterate, AfterAll, ValidRun, ChecksIn, OfflineKnown, InOrder;
    assert Inv(o, w) by { InitialInv(o, w); }
    RunKeepsInvariant(o, w, turns);
    CallsAreDue(o, w, turns, t, false);
  }
}
