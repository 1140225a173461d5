/** Whole runs of the bus worker: scan ticks, commands and reopened ports in any order. */
module BusRuns {
  import opened Wrappers
  import opened Bytes
  import opened BusScan

  /** A completed read pass: when it ended, which motors were asked and which had answered. */
  datatype Pass = Pass(time: int, asked: set<Motor>, responded: set<Motor>)

  /** The worker, the true EEPROM contents, and the completed passes so far. */
  datatype World = World(bus: Bus, eeprom: map<Motor, seq<byte>>, passes: seq<Pass>)

  /** Reset and freeze of the calibration touch every motor; `Touch` is a reset or a register write of
      one motor; `Rename` writes a motor's ID register; `Other` is any other command. */
  datatype Command = Calibrate | Touch(motor: Motor) | Rename(motor: Motor) | Other

  /** A scan, a command with what it leaves in the EEPROMs, or a port that went away and came back: the
      driver then builds a new port with a new worker and an empty cache. */
  datatype Step =
    | Scan(t: Tick, ram: map<Motor, seq<byte>>)
    | Execute(c: Command, eeprom: map<Motor, seq<byte>>)
    | Reopen(eeprom: map<Motor, seq<byte>>)

  /** The cache after the worker has handled a command. */
  function Invalidated(cache: map<Motor, seq<byte>>, c: Command): map<Motor, seq<byte>> {
    match c
    case Calibrate => map[]
    case Touch(m) => cache - {m}
    case Rename(m) => cache - {m}
    case Other => cache
  }

  function Responded(w: World, t: Tick): set<Motor> {
    ReadPass(w.bus.cache, t.order, t.replies).responded
  }

  function PassOf(w: World, t: Tick): Pass {
    Pass(t.now, (set m | m in t.order), Responded(w, t))
  }

  /** All that is asked of a step: a scan goes over the motors the worker knows. */
  ghost predicate Possible(w: World, s: Step) {
    s.Scan? ==> ValidTick(w.bus, s.t)
  }

  ghost function Next(w: World, s: Step): World
    requires Possible(w, s)
  {
    match s
    case Scan(t, _) =>
      World(ScanOutcome(w.bus, t).bus, w.eeprom,
            if t.cut.Some? then w.passes else w.passes + [PassOf(w, t)])
    case Execute(c, eeprom) => w.(bus := w.bus.(cache := Invalidated(w.bus.cache, c)), eeprom := eeprom)
    case Reopen(eeprom) => w.(bus := Bus({}, map[], map[]), eeprom := eeprom)
  }

  ghost predicate Run(w: World, steps: seq<Step>)
    decreases |steps|
  {
    steps == [] || (Possible(w, steps[0]) && Run(Next(w, steps[0]), steps[1..]))
  }

  ghost function After(w: World, steps: seq<Step>): World
    requires Run(w, steps)
    decreases |steps|
  {
    if steps == [] then w else After(Next(w, steps[0]), steps[1..])
  }

  /** A new worker on a new port. */
  ghost predicate Start(w: World) {
    w.bus == Bus({}, map[], map[]) && w.passes == []
  }

  /******* What every run keeps *******/

  /** From the `k`-th completed pass on the motor was asked in every one and never answered. */
  ghost predicate SilentSince(passes: seq<Pass>, k: int, m: Motor) {
    0 <= k < |passes| && forall j :: k <= j < |passes| ==> m in passes[j].asked && m !in passes[j].responded
  }

  ghost predicate MissedSince(passes: seq<Pass>, m: Motor, time: int) {
    exists k :: SilentSince(passes, k, m) && passes[k].time == time
  }

  /** The worker knows every motor it holds anything about, and has a missed pass for every time it holds. */
  ghost predicate Bookkept(w: World) {
    && w.bus.missingSince.Keys <= w.bus.lastSeen && w.bus.cache.Keys <= w.bus.lastSeen
    && forall m :: m in w.bus.missingSince ==> MissedSince(w.passes, m, w.bus.missingSince[m])
  }

  /******* What runs with truthful motors keep *******/

  ghost predicate GoodEeprom(eeprom: map<Motor, seq<byte>>) {
    forall m :: m in eeprom ==> |eeprom[m]| == EEPROM_SIZE
  }

  /** Replies carry what the motor holds, possibly cut short: RAM if its EEPROM is cached, everything
      otherwise. */
  ghost predicate Honest(cache: map<Motor, seq<byte>>, eeprom: map<Motor, seq<byte>>, ram: map<Motor, seq<byte>>,
      m: Motor, r: Reply)
  {
    !r.Silent? ==>
      && m in eeprom && m in ram && |ram[m]| == RAM_SIZE
      && r.data <= if m in cache then ram[m] else eeprom[m] + ram[m]
  }

  /** A command changes only EEPROM whose cached copy it invalidates. */
  ghost predicate Covered(w: World, c: Command, eeprom: map<Motor, seq<byte>>) {
    forall m :: m in Invalidated(w.bus.cache, c) && m in w.eeprom ==> m in eeprom && eeprom[m] == w.eeprom[m]
  }

  ghost predicate TrueStep(w: World, s: Step) {
    match s
    case Scan(t, ram) => forall m :: m in t.order ==> Honest(w.bus.cache, w.eeprom, ram, m, ReplyOf(t.replies, m))
    case Execute(c, eeprom) => GoodEeprom(eeprom) && Covered(w, c, eeprom)
    case Reopen(eeprom) => GoodEeprom(eeprom)
  }

  /** A run in which motors answer what they hold and EEPROM changes only through commands that drop the
      cached copy. */
  ghost predicate TrueRun(w: World, steps: seq<Step>)
    requires Run(w, steps)
    decreases |steps|
  {
    steps == [] || (TrueStep(w, steps[0]) && TrueRun(Next(w, steps[0]), steps[1..]))
  }

  ghost predicate Fresh(cache: map<Motor, seq<byte>>, eeprom: map<Motor, seq<byte>>) {
    GoodEeprom(eeprom) && forall m :: m in cache ==> m in eeprom && cache[m] == eeprom[m]
  }

  /******* The read pass *******/

  ghost predicate Distinct(order: seq<Motor>) {
    forall i, j :: 0 <= i < j < |order| ==> order[i] != order[j]
  }

  /** A published image is what a full read would have returned, as far as it goes. */
  ghost predicate TrueImage(e: Event, eeprom: map<Motor, seq<byte>>, ram: map<Motor, seq<byte>>) {
    e.DriveState? && (e.data != [] ==> e.motor in eeprom && e.motor in ram && e.data <= eeprom[e.motor] + ram[e.motor])
  }

  lemma OneReadIsSound(cache: map<Motor, seq<byte>>, m: Motor, r: Reply, eeprom: map<Motor, seq<byte>>,
      ram: map<Motor, seq<byte>>)
    requires Fresh(cache, eeprom) && Honest(cache, eeprom, ram, m, r)
    ensures Fresh(CacheAfter(cache, m, r), eeprom)
    ensures forall e :: e in ImageEvents(m, ImageOf(cache, m, r)) ==> TrueImage(e, eeprom, ram)
  {
    if !r.Silent? {
      if m in cache {
        assert cache[m] + r.data <= eeprom[m] + ram[m];
      } else if |r.data| >= EEPROM_SIZE {
        assert r.data[..EEPROM_SIZE] == (eeprom[m] + ram[m])[..EEPROM_SIZE] == eeprom[m];
      }
    }
  }

  lemma CacheGrows(cache: map<Motor, seq<byte>>, m: Motor, r: Reply)
    ensures cache.Keys <= CacheAfter(cache, m, r).Keys <= cache.Keys + {m}
  {
  }

  /** What a read pass does to the books, whatever the motors answer. */
  lemma {:induction false} ReadPassBooks(cache: map<Motor, seq<byte>>, order: seq<Motor>, replies: map<Motor, Reply>)
    ensures var r := ReadPass(cache, order, replies);
      && (forall m :: m in r.cache ==> m in cache || m in order)
      && (forall m :: m in r.responded ==> m in order)
      && (forall e :: e in r.events ==> e.DriveState?)
    decreases |order|
  {
    hide CacheAfter, ImageOf;
    if order != [] {
      var k := |order| - 1;
      assert order == order[..k] + [order[k]];
      ReadPassBooks(cache, order[..k], replies);
      CacheGrows(ReadPass(cache, order[..k], replies).cache, order[k], ReplyOf(replies, order[k]));
    }
  }

  /** What a motor answers depends only on whether it is cached itself. */
  lemma HonestElsewhere(cache: map<Motor, seq<byte>>, cache': map<Motor, seq<byte>>, eeprom: map<Motor, seq<byte>>,
      ram: map<Motor, seq<byte>>, m: Motor, r: Reply)
    requires Honest(cache, eeprom, ram, m, r) && (m in cache <==> m in cache')
    ensures Honest(cache', eeprom, ram, m, r)
  {
  }

  lemma {:induction false} ReadPassIsSound(cache: map<Motor, seq<byte>>, order: seq<Motor>, replies: map<Motor, Reply>,
      eeprom: map<Motor, seq<byte>>, ram: map<Motor, seq<byte>>)
    requires Distinct(order) && Fresh(cache, eeprom)
    requires forall m :: m in order ==> Honest(cache, eeprom, ram, m, ReplyOf(replies, m))
    ensures var r := ReadPass(cache, order, replies);
      && Fresh(r.cache, eeprom)
      && (forall m :: m !in order ==> (m in r.cache <==> m in cache))
      && cache.Keys <= r.cache.Keys
      && (forall m :: m in r.responded ==> m in order)
      && (forall e :: e in r.events ==> TrueImage(e, eeprom, ram))
    decreases |order|
  {
    hide Fresh, Honest, TrueImage, CacheAfter, ImageOf, ImageEvents, ReplyOf;
    if order != [] {
      var k := |order| - 1;
      var m := order[k];
      assert order == order[..k] + [m];
      assert m !in order[..k];
      ReadPassIsSound(cache, order[..k], replies, eeprom, ram);
      var before := ReadPass(cache, order[..k], replies);
      HonestElsewhere(cache, before.cache, eeprom, ram, m, ReplyOf(replies, m));
      OneReadIsSound(before.cache, m, ReplyOf(replies, m), eeprom, ram);
      CacheGrows(before.cache, m, ReplyOf(replies, m));
    }
  }

  /******* The grace window *******/

  /** The grace loop in terms of sets: a silent motor is dropped exactly when it was first missed a
      whole window ago, and otherwise stays known with the time it was first missed. */
  ghost predicate GraceIs(b: Bus, cache: map<Motor, seq<byte>>, order: seq<Motor>, responded: set<Motor>, now: int,
      g: Grace)
  {
    && (forall m :: m in g.gone <==> m in order && m !in responded && Expired(b, m, now))
    && (forall m :: m in g.seen <==> m in responded || (m in order && !Expired(b, m, now)))
    && g.cache == cache - (set m | m in g.gone)
    && (forall m :: m in g.missingSince <==> (m in b.missingSince || (m in order && m !in responded)) && m !in g.gone)
    && (forall m :: m in g.missingSince ==> g.missingSince[m] == FirstMissed(b, m, now))
  }

  lemma GraceStepIs(b: Bus, cache: map<Motor, seq<byte>>, order: seq<Motor>, responded: set<Motor>, now: int,
      g: Grace, m: Motor)
    requires GraceIs(b, cache, order, responded, now, g) && m !in order
    ensures GraceIs(b, cache, order + [m], responded, now, GraceStep(g, m, responded, now))
  {
    assert m !in g.gone;
    assert forall x :: x in order + [m] <==> x in order || x == m;
    if m !in responded {
      assert Expired(b, m, now) <==>
        now - (if m in g.missingSince then g.missingSince[m] else now) >= DISCONNECT_GRACE_MS;
      if Expired(b, m, now) {
        assert cache - (set x | x in g.gone) - {m} == cache - (set x | x in g.gone + [m]);
      }
    }
  }

  lemma {:induction false} GraceMeaning(b: Bus, cache: map<Motor, seq<byte>>, order: seq<Motor>,
      responded: set<Motor>, now: int)
    requires Distinct(order)
    ensures GraceIs(b, cache, order, responded, now,
      GracePass(Grace(b.missingSince, cache, responded, []), order, responded, now))
    decreases |order|
  {
    if order == [] {
      assert cache - {} == cache;
    } else {
      hide GraceIs, GraceStep;
      var k := |order| - 1;
      GraceMeaning(b, cache, order[..k], responded, now);
      assert order == order[..k] + [order[k]];
      GraceStepIs(b, cache, order[..k], responded, now,
        GracePass(Grace(b.missingSince, cache, responded, []), order[..k], responded, now), order[k]);
    }
  }

  /******* Steps and runs *******/

  lemma PassesExtend(passes: seq<Pass>, p: Pass, m: Motor, time: int)
    requires MissedSince(passes, m, time) && m in p.asked && m !in p.responded
    ensures MissedSince(passes + [p], m, time)
  {
    var k :| SilentSince(passes, k, m) && passes[k].time == time;
    assert SilentSince(passes + [p], k, m) && (passes + [p])[k].time == time;
  }

  lemma PassStarts(passes: seq<Pass>, p: Pass, m: Motor)
    requires m in p.asked && m !in p.responded
    ensures MissedSince(passes + [p], m, p.time)
  {
    assert SilentSince(passes + [p], |passes|, m) && (passes + [p])[|passes|].time == p.time;
  }

  ghost function GraceOf(w: World, t: Tick): Grace {
    var pass := ReadPass(w.bus.cache, t.order, t.replies);
    GracePass(Grace(w.bus.missingSince, pass.cache, pass.responded, []), t.order, pass.responded, t.now)
  }

  lemma MissedAfterTick(w: World, t: Tick, m: Motor)
    requires m in t.order && m !in Responded(w, t)
    requires forall m :: m in w.bus.missingSince ==> MissedSince(w.passes, m, w.bus.missingSince[m])
    ensures MissedSince(w.passes + [PassOf(w, t)], m, FirstMissed(w.bus, m, t.now))
  {
    hide ReadPass, MissedSince;
    var p := PassOf(w, t);
    if m in w.bus.missingSince {
      PassesExtend(w.passes, p, m, w.bus.missingSince[m]);
    } else {
      PassStarts(w.passes, p, m);
    }
  }

  lemma TickEvents(w: World, t: Tick)
    requires t.cut.None?
    ensures var events := ScanOutcome(w.bus, t).events;
      && (forall m :: Disconnect(m) in events ==>
        m in GraceOf(w, t).gone || Disconnect(m) in ReadPass(w.bus.cache, t.order, t.replies).events)
      && (forall e :: e in events && e.DriveState? ==> e in ReadPass(w.bus.cache, t.order, t.replies).events)
  {
    hide ReadPass, GracePass;
  }

  /** Silent motors stay in the book only if they stay known. */
  lemma KnownAfterTick(b: Bus, cache: map<Motor, seq<byte>>, order: seq<Motor>, responded: set<Motor>, now: int,
      g: Grace)
    requires GraceIs(b, cache, order, responded, now, g) && Enumerates(order, b.lastSeen)
    requires b.missingSince.Keys <= b.lastSeen && cache.Keys <= b.lastSeen && responded <= b.lastSeen
    ensures g.seen <= b.lastSeen && (g.missingSince - responded).Keys <= g.seen && g.cache.Keys <= g.seen
    ensures forall m :: m in g.missingSince - responded ==> m in order && g.missingSince[m] == FirstMissed(b, m, now)
  {
    hide Expired, FirstMissed;
  }

  /** The books after a completed tick. */
  lemma WholeTickBooks(w: World, t: Tick, ram: map<Motor, seq<byte>>)
    requires Bookkept(w) && ValidTick(w.bus, t) && t.cut.None?
    ensures Bookkept(Next(w, Scan(t, ram)))
  {
    hide ReadPass, GracePass, MissedSince, Expired, GraceIs, FirstMissed;
    var pass, w' := ReadPass(w.bus.cache, t.order, t.replies), Next(w, Scan(t, ram));
    ReadPassBooks(w.bus.cache, t.order, t.replies);
    GraceMeaning(w.bus, pass.cache, t.order, pass.responded, t.now);
    var g := GraceOf(w, t);
    assert pass.cache.Keys <= w.bus.lastSeen && pass.responded <= w.bus.lastSeen;
    KnownAfterTick(w.bus, pass.cache, t.order, pass.responded, t.now, g);
    assert w'.bus.missingSince == g.missingSince - pass.responded && w'.bus.cache == g.cache;
    assert g.seen <= w'.bus.lastSeen;
    forall m | m in w'.bus.missingSince ensures MissedSince(w'.passes, m, w'.bus.missingSince[m]) {
      MissedAfterTick(w, t, m);
    }
  }

  /** What a completed tick may report. */
  lemma TickDisconnects(w: World, t: Tick, m: Motor)
    requires Bookkept(w) && ValidTick(w.bus, t) && t.cut.None?
    requires Disconnect(m) in ScanOutcome(w.bus, t).events
    ensures MissedSince(w.passes + [PassOf(w, t)], m, FirstMissed(w.bus, m, t.now)) && Expired(w.bus, m, t.now)
  {
    hide ReadPass, GracePass, MissedSince, Expired, ScanOutcome;
    var pass := ReadPass(w.bus.cache, t.order, t.replies);
    ReadPassBooks(w.bus.cache, t.order, t.replies);
    GraceMeaning(w.bus, pass.cache, t.order, pass.responded, t.now);
    TickEvents(w, t);
    assert m in GraceOf(w, t).gone;
    MissedAfterTick(w, t, m);
  }

  /** A tick that a command cuts short. */
  lemma CutTickBooks(w: World, t: Tick, ram: map<Motor, seq<byte>>)
    requires Bookkept(w) && ValidTick(w.bus, t) && t.cut.Some?
    ensures Bookkept(Next(w, Scan(t, ram)))
    ensures forall e :: e in ScanOutcome(w.bus, t).events ==> e.DriveState?
  {
    hide ReadPass, MissedSince;
    var order := t.order[..t.cut.value];
    assert forall m :: m in order ==> m in t.order;
    ReadPassBooks(w.bus.cache, order, t.replies);
  }

  lemma StepKeepsBooks(w: World, s: Step)
    requires Bookkept(w) && Possible(w, s)
    ensures Bookkept(Next(w, s))
  {
    match s
    case Scan(t, ram) =>
      if t.cut.Some? {
        CutTickBooks(w, t, ram);
      } else {
        WholeTickBooks(w, t, ram);
      }
    case Execute(c, eeprom) =>
    case Reopen(eeprom) =>
  }

  lemma {:induction false} RunKeepsBooks(w: World, steps: seq<Step>)
    requires Bookkept(w) && Run(w, steps)
    ensures Bookkept(After(w, steps))
    decreases |steps|
  {
    hide Bookkept, Next, Possible;
    if steps != [] {
      StepKeepsBooks(w, steps[0]);
      RunKeepsBooks(Next(w, steps[0]), steps[1..]);
    }
  }

  lemma StartIsBookkept(w: World)
    requires Start(w)
    ensures Bookkept(w)
  {
  }

  /** On every run, whatever motors answer and commands do, a scan reports a motor disconnected only when it
      has been asked and silent in every completed pass of a stretch that ends now and began at least 100 ms
      ago. */
  lemma DisconnectIsEarned(w: World, steps: seq<Step>, t: Tick, ram: map<Motor, seq<byte>>, m: Motor)
    requires Start(w) && Run(w, steps) && ValidTick(After(w, steps).bus, t)
    requires Disconnect(m) in ScanOutcome(After(w, steps).bus, t).events
    ensures var passes := Next(After(w, steps), Scan(t, ram)).passes;
      exists k :: SilentSince(passes, k, m) && t.now - passes[k].time >= DISCONNECT_GRACE_MS
        && passes[|passes| - 1].time == t.now
  {
    hide After, Run, ScanOutcome, Bookkept, Responded, GracePass, ReadPass;
    assert Bookkept(w) by { StartIsBookkept(w); }
    RunKeepsBooks(w, steps);
    var v := After(w, steps);
    if t.cut.Some? {
      CutTickBooks(v, t, ram);
    } else {
      TickDisconnects(v, t, m);
      var passes := v.passes + [PassOf(v, t)];
      var k :| SilentSince(passes, k, m) && passes[k].time == FirstMissed(v.bus, m, t.now);
    }
  }

  /** In every reachable state the worker knows every motor it holds anything about. */
  lemma BookkeepingStaysKnown(w: World, steps: seq<Step>)
    requires Start(w) && Run(w, steps)
    ensures var b := After(w, steps).bus; b.missingSince.Keys <= b.lastSeen && b.cache.Keys <= b.lastSeen
  {
    RunKeepsBooks(w, steps);
  }

  /******* Images *******/

  lemma GraceKeepsFresh(b: Bus, cache: map<Motor, seq<byte>>, order: seq<Motor>, responded: set<Motor>, now: int,
      g: Grace, eeprom: map<Motor, seq<byte>>)
    requires GraceIs(b, cache, order, responded, now, g) && Fresh(cache, eeprom)
    ensures Fresh(g.cache, eeprom)
  {
    hide Expired, FirstMissed;
  }

  /** The part of the motors a tick reads. */
  function Read(t: Tick): seq<Motor>
    requires t.cut.Some? ==> t.cut.value <= |t.order|
  {
    if t.cut.Some? then t.order[..t.cut.value] else t.order
  }

  /** A scan keeps the cache true and publishes true images. */
  lemma ScanIsTrue(w: World, t: Tick, ram: map<Motor, seq<byte>>)
    requires Fresh(w.bus.cache, w.eeprom) && ValidTick(w.bus, t) && TrueStep(w, Scan(t, ram))
    ensures Fresh(Next(w, Scan(t, ram)).bus.cache, w.eeprom)
    ensures forall e :: e in ScanOutcome(w.bus, t).events && e.DriveState? ==> TrueImage(e, w.eeprom, ram)
  {
    hide ReadPass, GracePass, TrueImage, Honest, GraceIs, Fresh;
    var order := Read(t);
    assert forall m :: m in order ==> m in t.order;
    ReadPassIsSound(w.bus.cache, order, t.replies, w.eeprom, ram);
    if t.cut.None? {
      var pass := ReadPass(w.bus.cache, t.order, t.replies);
      GraceMeaning(w.bus, pass.cache, t.order, pass.responded, t.now);
      GraceKeepsFresh(w.bus, pass.cache, t.order, pass.responded, t.now, GraceOf(w, t), w.eeprom);
      TickEvents(w, t);
    }
  }

  lemma StepKeepsFresh(w: World, s: Step)
    requires Fresh(w.bus.cache, w.eeprom) && Possible(w, s) && TrueStep(w, s)
    ensures Fresh(Next(w, s).bus.cache, Next(w, s).eeprom)
  {
    match s
    case Scan(t, ram) =>
      ScanIsTrue(w, t, ram);
    case Execute(c, eeprom) =>
    case Reopen(eeprom) =>
  }

  lemma {:induction false} RunKeepsFresh(w: World, steps: seq<Step>)
    requires Fresh(w.bus.cache, w.eeprom) && Run(w, steps) && TrueRun(w, steps)
    ensures Fresh(After(w, steps).bus.cache, After(w, steps).eeprom)
    decreases |steps|
  {
    hide Fresh, Next, Possible, TrueStep;
    if steps != [] {
      StepKeepsFresh(w, steps[0]);
      RunKeepsFresh(Next(w, steps[0]), steps[1..]);
    }
  }

  /** On every run with truthful motors, every published image that is not empty is, as far as it goes, what a
      full read of the motor would have returned at that moment. */
  lemma ImagesAreTrue(w: World, steps: seq<Step>, t: Tick, ram: map<Motor, seq<byte>>, e: Event)
    requires Start(w) && GoodEeprom(w.eeprom) && Run(w, steps) && TrueRun(w, steps)
    requires ValidTick(After(w, steps).bus, t) && TrueStep(After(w, steps), Scan(t, ram))
    requires e in ScanOutcome(After(w, steps).bus, t).events && e.DriveState?
    ensures TrueImage(e, After(w, steps).eeprom, ram)
  {
    RunKeepsFresh(w, steps);
    ScanIsTrue(After(w, steps), t, ram);
  }

  /** When a command rewrites the EEPROM of one motor, the cache stays true exactly when that motor was
      not cached or the command is one of those that drop its entry.  A plain write or an action on a
      cached motor leaves a stale copy behind. */
  lemma CacheStaysFreshIff(w: World, c: Command, m: Motor, content: seq<byte>)
    requires Fresh(w.bus.cache, w.eeprom) && m in w.eeprom && |content| == EEPROM_SIZE && content != w.eeprom[m]
    ensures Fresh(Next(w, Execute(c, w.eeprom[m := content])).bus.cache, w.eeprom[m := content])
      <==> m !in w.bus.cache || c == Calibrate || c == Touch(m) || c == Rename(m)
  {
    var cache := Invalidated(w.bus.cache, c);
    assert forall x :: x in cache ==> x in w.bus.cache && cache[x] == w.bus.cache[x] == w.eeprom[x];
  }

  /******* A stale entry *******/

  /** A tick over one motor that answers. */
  lemma TickOfOne(b: Bus, m: Motor, data: seq<byte>, now: int)
    requires b.lastSeen == {m} && b.missingSince == map[] && data != []
    ensures var t := Tick([m], None, map[m := Answer(data)], now, NoSearch);
      && ValidTick(b, t)
      && ScanOutcome(b, t) == Outcome(Bus({m}, map[], CacheAfter(b.cache, m, Answer(data))),
                                      ImageEvents(m, ImageOf(b.cache, m, Answer(data))))
  {
    hide CacheAfter, ImageOf;
    var t := Tick([m], None, map[m := Answer(data)], now, NoSearch);
    assert [m][..0] == [];
    var pass := ReadPass(b.cache, [m], t.replies);
    assert ReadPass(b.cache, [], t.replies) == PassResult(b.cache, {}, []);
    var start := Grace(map[], pass.cache, pass.responded, []);
    assert GracePass(start, [], {m}, now) == start;
    assert pass.responded == {m};
    assert GracePass(start, [m], {m}, now) == start;
    assert start.missingSince - {m} == map[] && Disconnects([]) == [] && Connects([]) == [];
    assert pass.events == ImageEvents(m, ImageOf(b.cache, m, Answer(data)));
    assert pass.events + [] + [] == pass.events;
  }

  /** A tick that finds one motor on a silent bus. */
  lemma TickThatFinds(m: Motor, now: int)
    ensures var b, t := Bus({}, map[], map[]), Tick([], None, map[], now, Found([m]));
      ValidTick(b, t) && ScanOutcome(b, t).bus == Bus({m}, map[], map[])
  {
    var t := Tick([], None, map[], now, Found([m]));
    var pass := ReadPass(map[], [], t.replies);
    assert pass == PassResult(map[], {}, []);
    assert GracePass(Grace(map[], map[], {}, []), [], {}, now) == Grace(map[], map[], {}, []);
    assert ScanOutcome(Bus({}, map[], map[]), t).bus.missingSince == map[];
  }

  lemma TwoSteps(w: World, s1: Step, s2: Step)
    requires Possible(w, s1) && TrueStep(w, s1) && Possible(Next(w, s1), s2) && TrueStep(Next(w, s1), s2)
    ensures Run(w, [s1, s2]) && TrueRun(w, [s1, s2]) && After(w, [s1, s2]) == Next(Next(w, s1), s2)
  {
    hide Next, Possible, TrueStep;
    var w1, w2 := Next(w, s1), Next(Next(w, s1), s2);
    assert [s1, s2][1..] == [s2] && [s2][1..] == [];
    assert Run(w2, []) && TrueRun(w2, []) && After(w2, []) == w2;
    assert Run(w1, [s2]) && TrueRun(w1, [s2]) && After(w1, [s2]) == w2;
  }

  /** A motor is found, read once, and then rewritten by a plain write: the run goes on, and the next image is
      not what a full read would have returned. */
  lemma PlainWriteGoesStale(w: World, ram: seq<byte>, content: seq<byte>) returns (steps: seq<Step>, t: Tick)
    requires Start(w) && GoodEeprom(w.eeprom) && 1 in w.eeprom
    requires |ram| == RAM_SIZE && |content| == EEPROM_SIZE && content != w.eeprom[1]
    ensures Run(w, steps) && TrueRun(w, steps) && 1 in After(w, steps).bus.cache && After(w, steps).eeprom == w.eeprom
    ensures var v := Next(After(w, steps), Execute(Other, w.eeprom[1 := content]));
      && ValidTick(v.bus, t) && TrueStep(v, Scan(t, map[1 := ram]))
      && exists e :: e in ScanOutcome(v.bus, t).events && !TrueImage(e, v.eeprom, map[1 := ram])
  {
    hide ScanOutcome, ReadPass;
    var was := w.eeprom[1];
    var s1 := Scan(Tick([], None, map[], 1, Found([1])), map[]);
    var s2 := Scan(Tick([1], None, map[1 := Answer(was + ram)], 2, NoSearch), map[1 := ram]);
    TickThatFinds(1, 1);
    var w1 := Next(w, s1);
    TickOfOne(w1.bus, 1, was + ram, 2);
    var w2 := Next(w1, s2);
    assert (was + ram)[..EEPROM_SIZE] == was;
    assert w2.bus == Bus({1}, map[], map[1 := was]);
    steps := [s1, s2];
    TwoSteps(w, s1, s2);
    t := Tick([1], None, map[1 := Answer(ram)], 3, NoSearch);
    TickOfOne(w2.bus, 1, ram, 3);
    var e := DriveState(1, was + ram);
    assert e in ScanOutcome(w2.bus, t).events;
    assert (content + ram)[..EEPROM_SIZE] == content;
  }
}
