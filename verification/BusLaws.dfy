/** What one tick of the bus worker reports and remembers of each motor, written out motor by motor. */
module BusLaws {
  import opened Wrappers
  import opened Bytes
  import opened BusScan
  import opened BusRuns

  /** The motors a tick reads: those before a waiting command, or all. */
  function Asked(t: Tick): seq<Motor>
    requires t.cut.Some? ==> t.cut.value <= |t.order|
  {
    if t.cut.Some? then t.order[..t.cut.value] else t.order
  }

  predicate Answers(t: Tick, m: Motor) {
    m in t.replies && !t.replies[m].Silent?
  }

  /** The image published for a motor: data behind its cached EEPROM, data alone when nothing is cached, and
      for a faulty answer of unexpected size nothing. */
  predicate Publishes(cache: map<Motor, seq<byte>>, t: Tick, m: Motor, image: seq<byte>) {
    && Answers(t, m) && t.replies[m].data != []
    && var data := t.replies[m].data;
       image == if t.replies[m].Answer? then (if m in cache then cache[m] + data else data)
                else if |data| >= 71 then data
                else if |data| >= 31 && m in cache then cache[m] + data
                else []
  }

  /** Whether a completed tick drops a motor: it was asked, was silent, and had been missed for 100 ms. */
  predicate Drops(b: Bus, t: Tick, m: Motor) {
    m in b.lastSeen && !Answers(t, m) && m in b.missingSince && t.now - b.missingSince[m] >= 100
  }

  predicate Finds(t: Tick, m: Motor) {
    t.search.Found? && m in t.search.motors
  }

  /** Whether a read leaves a new cache entry. */
  predicate Caches(cache: map<Motor, seq<byte>>, t: Tick, m: Motor) {
    m !in cache && Answers(t, m) && t.replies[m].Answer? && |t.replies[m].data| >= 40
  }

  /** The EEPROM part of a full answer. */
  function Head(t: Tick, m: Motor): seq<byte> {
    if m in t.replies && t.replies[m].Answer? && |t.replies[m].data| >= 40 then t.replies[m].data[..40] else []
  }

  /******* The read pass *******/

  lemma ReplyIs(t: Tick, m: Motor)
    ensures ReplyOf(t.replies, m).Silent? <==> !Answers(t, m)
    ensures Answers(t, m) ==> ReplyOf(t.replies, m) == t.replies[m]
  {
  }

  lemma ImageIs(cache: map<Motor, seq<byte>>, t: Tick, m: Motor, image: seq<byte>)
    ensures ImageOf(cache, m, ReplyOf(t.replies, m)) == Some(image) <==> Publishes(cache, t, m, image)
  {
  }

  lemma CacheIs(cache: map<Motor, seq<byte>>, t: Tick, m: Motor)
    ensures CacheAfter(cache, m, ReplyOf(t.replies, m))
      == if Caches(cache, t, m) then cache[m := Head(t, m)] else cache
  {
  }

  /** At most one image for each motor. */
  ghost predicate OneEach(events: seq<Event>) {
    forall i, j :: 0 <= i < j < |events| && events[i].DriveState? && events[j].DriveState? ==>
      events[i].motor != events[j].motor
  }

  /** A read pass, motor by motor. */
  ghost predicate PassIs(cache: map<Motor, seq<byte>>, t: Tick, order: seq<Motor>, r: PassResult) {
    && (forall m :: m in r.responded <==> m in order && Answers(t, m))
    && (forall m :: m in r.cache <==> m in cache || (m in order && Caches(cache, t, m)))
    && (forall m :: m in r.cache ==> r.cache[m] == if m in cache then cache[m] else Head(t, m))
    && (forall e :: e in r.events ==> e.DriveState?)
    && (forall m, image :: DriveState(m, image) in r.events <==> m in order && Publishes(cache, t, m, image))
    && OneEach(r.events)
  }

  lemma CachesNew(cache: map<Motor, seq<byte>>, t: Tick, m: Motor)
    ensures Caches(cache, t, m) ==> m !in cache
  {
  }

  lemma SameEntry(cache: map<Motor, seq<byte>>, cache': map<Motor, seq<byte>>, t: Tick, m: Motor)
    requires (m in cache <==> m in cache') && (m in cache ==> cache[m] == cache'[m])
    ensures forall image :: Publishes(cache, t, m, image) == Publishes(cache', t, m, image)
    ensures Caches(cache, t, m) == Caches(cache', t, m)
  {
  }

  /** The images of one more motor. */
  lemma EventsStep(
      cache: map<Motor, seq<byte>>, t: Tick, order: seq<Motor>, events: seq<Event>, m: Motor, more: seq<Event>)
    requires m !in order && OneEach(events) && (forall e :: e in events ==> e.DriveState?)
    requires forall x, image :: DriveState(x, image) in events <==> x in order && Publishes(cache, t, x, image)
    requires |more| <= 1 && (forall e :: e in more ==> e.DriveState? && e.motor == m)
    requires forall image :: DriveState(m, image) in more <==> Publishes(cache, t, m, image)
    ensures OneEach(events + more) && (forall e :: e in events + more ==> e.DriveState?)
    ensures forall x, image ::
      DriveState(x, image) in events + more <==> x in order + [m] && Publishes(cache, t, x, image)
  {
    hide Publishes;
    var all := events + more;
    forall i, j | 0 <= i < j < |all| && all[i].DriveState? && all[j].DriveState? ensures all[i].motor != all[j].motor {
      if j >= |events| {
        assert all[i] == DriveState(all[i].motor, all[i].data) && all[i] in events;
        assert all[j] in more;
      }
    }
    forall x, image ensures DriveState(x, image) in all <==> x in order + [m] && Publishes(cache, t, x, image) {
      assert DriveState(x, image) in all <==> DriveState(x, image) in events || DriveState(x, image) in more;
    }
  }

  lemma ImageEventsAre(cache: map<Motor, seq<byte>>, t: Tick, m: Motor)
    ensures var more := ImageEvents(m, ImageOf(cache, m, ReplyOf(t.replies, m)));
      && |more| <= 1 && (forall e :: e in more ==> e.DriveState? && e.motor == m)
      && forall image :: DriveState(m, image) in more <==> Publishes(cache, t, m, image)
  {
    hide ImageOf, Publishes;
    forall image ensures ImageOf(cache, m, ReplyOf(t.replies, m)) == Some(image) <==> Publishes(cache, t, m, image) {
      ImageIs(cache, t, m, image);
    }
  }

  lemma PassStep(cache: map<Motor, seq<byte>>, t: Tick, order: seq<Motor>, r: PassResult, m: Motor)
    requires PassIs(cache, t, order, r) && m !in order
    ensures var reply := ReplyOf(t.replies, m);
      PassIs(cache, t, order + [m],
             PassResult(CacheAfter(r.cache, m, reply), r.responded + (if reply.Silent? then {} else {m}),
                        r.events + ImageEvents(m, ImageOf(r.cache, m, reply))))
  {
    hide Publishes, Caches, ImageOf, CacheAfter, OneEach, ImageEvents, Head;
    ReplyIs(t, m);
    CacheIs(r.cache, t, m);
    SameEntry(cache, r.cache, t, m);
    ImageEventsAre(r.cache, t, m);
    var reply := ReplyOf(t.replies, m);
    EventsStep(cache, t, order, r.events, m, ImageEvents(m, ImageOf(r.cache, m, reply)));
    CachesNew(r.cache, t, m);
    assert forall x :: x in order + [m] <==> x in order || x == m;
  }

  lemma {:induction false} PassIsRead(cache: map<Motor, seq<byte>>, t: Tick, order: seq<Motor>)
    requires Distinct(order)
    ensures PassIs(cache, t, order, ReadPass(cache, order, t.replies))
    decreases |order|
  {
    if order == [] {
      assert ReadPass(cache, order, t.replies) == PassResult(cache, {}, []);
    } else {
      hide PassIs, CacheAfter, ImageOf, ImageEvents, ReplyOf;
      var k := |order| - 1;
      assert order == order[..k] + [order[k]];
      PassIsRead(cache, t, order[..k]);
      PassStep(cache, t, order[..k], ReadPass(cache, order[..k], t.replies), order[k]);
    }
  }

  /******* A tick *******/

  /** What a tick leaves of the books. */
  ghost predicate BooksAre(b: Bus, t: Tick, b': Bus)
    requires t.cut.Some? ==> t.cut.value <= |t.order|
  {
    if t.cut.Some? then
      b'.lastSeen == b.lastSeen && b'.missingSince == b.missingSince
    else
      && (forall m :: m in b'.lastSeen <==>
           if t.search.Abandoned? then m in b.lastSeen else (m in b.lastSeen && !Drops(b, t, m)) || Finds(t, m))
      && (forall m :: m in b'.missingSince <==> m in b.lastSeen && !Answers(t, m) && !Drops(b, t, m))
      && (forall m :: m in b'.missingSince ==>
           b'.missingSince[m] == if m in b.missingSince then b.missingSince[m] else t.now)
  }

  ghost predicate CacheIsAfter(b: Bus, t: Tick, b': Bus)
    requires t.cut.Some? ==> t.cut.value <= |t.order|
  {
    && (forall m :: m in b'.cache <==>
         && (m in b.cache || (m in Asked(t) && Caches(b.cache, t, m))) && (t.cut.Some? || !Drops(b, t, m)))
    && (forall m :: m in b'.cache ==> b'.cache[m] == if m in b.cache then b.cache[m] else Head(t, m))
  }

  /** What a tick reports. */
  ghost predicate EventsAre(b: Bus, t: Tick, events: seq<Event>)
    requires t.cut.Some? ==> t.cut.value <= |t.order|
  {
    && (forall m :: Connect(m) in events <==> t.cut.None? && Finds(t, m))
    && (forall m :: Disconnect(m) in events <==> t.cut.None? && Drops(b, t, m))
    && (forall m, image :: DriveState(m, image) in events <==> m in Asked(t) && Publishes(b.cache, t, m, image))
    && OneEach(events)
  }

  lemma DropsIs(b: Bus, t: Tick, responded: set<Motor>, m: Motor)
    requires Enumerates(t.order, b.lastSeen) && (m in responded <==> m in t.order && Answers(t, m))
    ensures m in t.order && m !in responded && Expired(b, m, t.now) <==> Drops(b, t, m)
  {
  }

  /** What a completed tick does, in terms of the motors that answered and those that are dropped. */
  lemma TickParts(w: World, t: Tick)
    requires Bookkept(w) && ValidTick(w.bus, t) && t.cut.None?
    ensures var b, pass, g := w.bus, ReadPass(w.bus.cache, t.order, t.replies), GraceOf(w, t);
      && PassIs(b.cache, t, t.order, pass) && GraceIs(b, pass.cache, t.order, pass.responded, t.now, g)
      && (forall m :: m in g.gone <==> Drops(b, t, m))
      && (forall m :: m in t.order && m !in pass.responded ==> (Expired(b, m, t.now) <==> Drops(b, t, m)))
      && (forall m :: Drops(b, t, m) ==> m in b.lastSeen && !Answers(t, m))
  {
    hide ReadPass, GracePass, MissedSince, Expired, Drops, Answers, PassIs, Bookkept;
    var b := w.bus;
    var pass := ReadPass(b.cache, t.order, t.replies);
    PassIsRead(b.cache, t, t.order);
    GraceMeaning(b, pass.cache, t.order, pass.responded, t.now);
    RespondedIs(b.cache, t, t.order, pass);
    forall m ensures m in GraceOf(w, t).gone <==> Drops(b, t, m) {
      DropsIs(b, t, pass.responded, m);
    }
    forall m | m in t.order && m !in pass.responded ensures Expired(b, m, t.now) <==> Drops(b, t, m) {
      DropsIs(b, t, pass.responded, m);
    }
    DroppedIsKnown(b, t);
  }

  lemma RespondedIs(cache: map<Motor, seq<byte>>, t: Tick, order: seq<Motor>, r: PassResult)
    requires PassIs(cache, t, order, r)
    ensures forall m :: m in r.responded <==> m in order && Answers(t, m)
  {
  }

  /** The books of a completed tick. */
  lemma WholeBooks(w: World, t: Tick)
    requires Bookkept(w) && ValidTick(w.bus, t) && t.cut.None?
    ensures BooksAre(w.bus, t, ScanOutcome(w.bus, t).bus)
  {
    hide ReadPass, GracePass, MissedSince, Expired, Drops, Answers, PassIs;
    TickParts(w, t);
    RespondedIs(w.bus.cache, t, t.order, ReadPass(w.bus.cache, t.order, t.replies));
  }

  lemma WholeCache(w: World, t: Tick)
    requires Bookkept(w) && ValidTick(w.bus, t) && t.cut.None?
    ensures CacheIsAfter(w.bus, t, ScanOutcome(w.bus, t).bus)
  {
    hide ReadPass, GracePass, MissedSince, Expired, Drops, Answers, Caches, Publishes, OneEach, Head, FirstMissed;
    TickParts(w, t);
  }

  lemma DroppedIsKnown(b: Bus, t: Tick)
    ensures forall m :: Drops(b, t, m) ==> m in b.lastSeen && !Answers(t, m)
  {
  }

  /** The events of a completed tick: images, then disconnects, then connects. */
  lemma WholeEvents(w: World, t: Tick)
    requires Bookkept(w) && ValidTick(w.bus, t) && t.cut.None?
    ensures EventsAre(w.bus, t, ScanOutcome(w.bus, t).events)
  {
    hide ReadPass, GracePass, MissedSince, Expired, Drops, Answers, Caches, Publishes, Head, OneEach;
    TickParts(w, t);
    var pass, g := ReadPass(w.bus.cache, t.order, t.replies), GraceOf(w, t);
    var found := if t.search.Found? then t.search.motors else [];
    DisconnectsHold(g.gone);
    ConnectsHold(found);
    OthersKeepOneEach(pass.events, Disconnects(g.gone) + Connects(found));
    assert pass.events + Disconnects(g.gone) + Connects(found) == pass.events + (Disconnects(g.gone) + Connects(found));
  }

  lemma DisconnectsHold(motors: seq<Motor>)
    ensures forall m :: Disconnect(m) in Disconnects(motors) <==> m in motors
    ensures forall e :: e in Disconnects(motors) ==> e.Disconnect?
  {
    forall m | m in motors ensures Disconnect(m) in Disconnects(motors) {
      var i :| 0 <= i < |motors| && motors[i] == m;
      assert Disconnects(motors)[i] == Disconnect(m);
    }
  }

  lemma ConnectsHold(motors: seq<Motor>)
    ensures forall m :: Connect(m) in Connects(motors) <==> m in motors
    ensures forall e :: e in Connects(motors) ==> e.Connect?
  {
    forall m | m in motors ensures Connect(m) in Connects(motors) {
      var i :| 0 <= i < |motors| && motors[i] == m;
      assert Connects(motors)[i] == Connect(m);
    }
  }

  lemma OthersKeepOneEach(events: seq<Event>, more: seq<Event>)
    requires OneEach(events) && forall e :: e in more ==> !e.DriveState?
    ensures OneEach(events + more)
  {
    var all := events + more;
    assert forall k :: |events| <= k < |all| ==> all[k] == more[k - |events|] && all[k] in more;
  }

  /** A tick that a command cuts short. */
  lemma CutLaws(b: Bus, t: Tick)
    requires ValidTick(b, t) && t.cut.Some?
    ensures BooksAre(b, t, ScanOutcome(b, t).bus) && CacheIsAfter(b, t, ScanOutcome(b, t).bus)
    ensures EventsAre(b, t, ScanOutcome(b, t).events)
  {
    hide ReadPass, Drops, Answers, Caches, Publishes, Head, OneEach;
    PassIsRead(b.cache, t, t.order[..t.cut.value]);
  }

  /** In every state a run can reach, a tick reports and remembers exactly this: a connect for each motor a
      completed search found, a disconnect for each motor asked, silent and missed for 100 ms, one image for each
      motor that answered with data, and the books to match. */
  lemma TickLaws(w: World, steps: seq<Step>, t: Tick)
    requires Start(w) && Run(w, steps) && ValidTick(After(w, steps).bus, t)
    ensures var b := After(w, steps).bus;
      && EventsAre(b, t, ScanOutcome(b, t).events)
      && BooksAre(b, t, ScanOutcome(b, t).bus) && CacheIsAfter(b, t, ScanOutcome(b, t).bus)
  {
    hide ScanOutcome, EventsAre, BooksAre, CacheIsAfter, After, Run, Bookkept;
    assert Bookkept(w) by { StartIsBookkept(w); }
    RunKeepsBooks(w, steps);
    var v := After(w, steps);
    if t.cut.Some? {
      CutLaws(v.bus, t);
    } else {
      WholeBooks(v, t);
      WholeCache(v, t);
      WholeEvents(v, t);
    }
  }

  /******* The order of the reports *******/

  /** Images come first, then at most one disconnect for each motor, then one connect for each motor the search
      found, in its order. */
  ghost predicate Ordered(t: Tick, events: seq<Event>) {
    var found := if t.cut.None? && t.search.Found? then t.search.motors else [];
    var n := |events| - |found|;
    && n >= 0 && (forall k :: 0 <= k < |found| ==> events[n + k] == Connect(found[k]))
    && (forall i :: 0 <= i < n ==> !events[i].Connect?)
    && (forall i, j :: 0 <= i < j < n && events[j].DriveState? ==> events[i].DriveState?)
    && (forall i, j :: 0 <= i < j < n && events[i].Disconnect? && events[j].Disconnect? ==>
         events[i].motor != events[j].motor)
  }

  lemma {:induction false} GoneOnce(g: Grace, order: seq<Motor>, responded: set<Motor>, now: int)
    requires Distinct(order) && g.gone == []
    ensures var gone := GracePass(g, order, responded, now).gone;
      Distinct(gone) && forall m :: m in gone ==> m in order
    decreases |order|
  {
    if order != [] {
      var k := |order| - 1;
      GoneOnce(g, order[..k], responded, now);
      assert order[k] !in order[..k];
    }
  }

  lemma {:induction false} OnlyImages(cache: map<Motor, seq<byte>>, order: seq<Motor>, replies: map<Motor, Reply>)
    ensures forall e :: e in ReadPass(cache, order, replies).events ==> e.DriveState?
    decreases |order|
  {
    if order != [] {
      OnlyImages(cache, order[..|order| - 1], replies);
    }
  }

  lemma ThreeParts(images: seq<Event>, gone: seq<Motor>, found: seq<Motor>, t: Tick)
    requires (forall e :: e in images ==> e.DriveState?) && Distinct(gone)
    requires found == if t.cut.None? && t.search.Found? then t.search.motors else []
    ensures Ordered(t, images + Disconnects(gone) + Connects(found))
  {
    hide Disconnects, Connects, Distinct;
    var all, p, n := images + Disconnects(gone) + Connects(found), |images|, |images| + |gone|;
    PartsAre(images, gone, found);
    forall i, j | 0 <= i < j < n && all[i].Disconnect? && all[j].Disconnect?
      ensures all[i].motor != all[j].motor
    {
      DistinctAt(gone, i - p, j - p);
    }
    assert |all| - |found| == n;
  }

  lemma DistinctAt(s: seq<Motor>, i: int, j: int)
    requires Distinct(s) && 0 <= i < j < |s|
    ensures s[i] != s[j]
  {
  }

  lemma PartsAre(images: seq<Event>, gone: seq<Motor>, found: seq<Motor>)
    requires forall e :: e in images ==> e.DriveState?
    ensures var all, p, n := images + Disconnects(gone) + Connects(found), |images|, |images| + |gone|;
      && |all| == n + |found|
      && (forall i :: 0 <= i < p ==> all[i].DriveState?)
      && (forall i :: p <= i < n ==> all[i] == Disconnect(gone[i - p]))
      && (forall k :: 0 <= k < |found| ==> all[n + k] == Connect(found[k]))
  {
    var all := images + Disconnects(gone) + Connects(found);
    assert forall i :: 0 <= i < |images| ==> all[i] == images[i] && all[i] in images;
  }

  lemma EventOrder(b: Bus, t: Tick)
    requires ValidTick(b, t)
    ensures Ordered(t, ScanOutcome(b, t).events)
  {
    hide ReadPass, GracePass, Ordered;
    if t.cut.Some? {
      var images := ReadPass(b.cache, t.order[..t.cut.value], t.replies).events;
      OnlyImages(b.cache, t.order[..t.cut.value], t.replies);
      ThreeParts(images, [], [], t);
      assert images + Disconnects([]) + Connects([]) == images;
    } else {
      var pass := ReadPass(b.cache, t.order, t.replies);
      var start := Grace(b.missingSince, pass.cache, pass.responded, []);
      OnlyImages(b.cache, t.order, t.replies);
      GoneOnce(start, t.order, pass.responded, t.now);
      ThreeParts(pass.events, GracePass(start, t.order, pass.responded, t.now).gone,
                 if t.search.Found? then t.search.motors else [], t);
    }
  }

  lemma ImageFor(cache: map<Motor, seq<byte>>, t: Tick, m: Motor) returns (image: seq<byte>)
    requires Answers(t, m) && t.replies[m].data != []
    ensures Publishes(cache, t, m, image)
  {
    var data := t.replies[m].data;
    image := if t.replies[m].Answer? then (if m in cache then cache[m] + data else data)
             else if |data| >= 71 then data
             else if |data| >= 31 && m in cache then cache[m] + data
             else [];
  }

  /** The only image of a motor among some events stands at `i`. */
  ghost predicate OnlyImage(events: seq<Event>, i: int, m: Motor) {
    && 0 <= i < |events| && events[i].DriveState? && events[i].motor == m
    && forall j :: 0 <= j < |events| && events[j].DriveState? && events[j].motor == m ==> i == j
  }

  /** A motor that answers with data gets exactly one image. */
  lemma OneImage(w: World, steps: seq<Step>, t: Tick, m: Motor)
    requires Start(w) && Run(w, steps) && ValidTick(After(w, steps).bus, t)
    requires m in Asked(t) && Answers(t, m) && t.replies[m].data != []
    ensures exists i :: OnlyImage(ScanOutcome(After(w, steps).bus, t).events, i, m)
  {
    hide ScanOutcome, BooksAre, CacheIsAfter, After, Run, Publishes, OneEach;
    TickLaws(w, steps, t);
    var b, events := After(w, steps).bus, ScanOutcome(After(w, steps).bus, t).events;
    var image := ImageFor(b.cache, t, m);
    OneIndex(events, m, image);
  }

  lemma OneIndex(events: seq<Event>, m: Motor, image: seq<byte>)
    requires OneEach(events) && DriveState(m, image) in events
    ensures exists i :: OnlyImage(events, i, m)
  {
    var i :| 0 <= i < |events| && events[i] == DriveState(m, image);
    assert OnlyImage(events, i, m);
  }

  /******* Connects over runs *******/

  /** The motors reported connected by this worker. */
  ghost function Announced(w: World, steps: seq<Step>): set<Motor>
    requires Run(w, steps)
  {
    if steps == [] then {}
    else
      var k := |steps| - 1;
      RunPrefix(w, steps, k);
      match steps[k]
      case Scan(t, _) =>
        var events := ScanOutcome(After(w, steps[..k]).bus, t).events;
        Announced(w, steps[..k]) + set m: Motor | Connect(m) in events
      case Execute(_, _) => Announced(w, steps[..k])
      case Reopen(_) => {}
  }

  lemma {:induction false} RunPrefix(w: World, steps: seq<Step>, k: nat)
    requires Run(w, steps) && k < |steps|
    ensures Run(w, steps[..k]) && Possible(After(w, steps[..k]), steps[k])
    ensures k + 1 == |steps| ==> After(w, steps) == Next(After(w, steps[..k]), steps[k])
    decreases k
  {
    hide Possible, Next;
    if k > 0 {
      RunPrefix(Next(w, steps[0]), steps[1..], k - 1);
      assert steps[..k][1..] == steps[1..][..k - 1] && steps[..k][0] == steps[0];
    } else {
      assert steps[..0] == [];
      if |steps| == 1 {
        assert steps[1..] == [];
      }
    }
  }

  /** On every run, a motor the worker knows was reported connected by it. */
  lemma {:induction false} KnownWasConnected(w: World, steps: seq<Step>)
    requires Start(w) && Run(w, steps)
    ensures After(w, steps).bus.lastSeen <= Announced(w, steps)
    decreases |steps|
  {
    hide ScanOutcome, CacheIsAfter;
    if steps != [] {
      var k := |steps| - 1;
      RunPrefix(w, steps, k);
      KnownWasConnected(w, steps[..k]);
      if steps[k].Scan? {
        TickLaws(w, steps[..k], steps[k].t);
      }
    }
  }

  /** A motor that becomes known is reported connected in that very tick, and whoever is reported is known. */
  lemma NewIsConnected(w: World, steps: seq<Step>, t: Tick, m: Motor)
    requires Start(w) && Run(w, steps) && ValidTick(After(w, steps).bus, t)
    ensures var b := After(w, steps).bus;
      var next := ScanOutcome(b, t);
      && (m in next.bus.lastSeen && m !in b.lastSeen ==> Connect(m) in next.events)
      && (Connect(m) in next.events ==> m in next.bus.lastSeen)
  {
    hide ScanOutcome, CacheIsAfter, After, Run;
    TickLaws(w, steps, t);
  }
}
