/** The ST3215 bus worker: the periodic scan with its EEPROM cache and its grace window for silent
    motors, and the commands that invalidate the cache. */
module BusScan {
  import opened Wrappers
  import opened Bytes

  const EEPROM_SIZE: nat := 40
  const RAM_SIZE: nat := 31
  const FULL_SIZE: nat := 71
  const DISCONNECT_GRACE_MS: int := 100

  type Motor = byte

  /** How a motor answers a read request. */
  datatype Reply = Answer(data: seq<byte>) | ServoFault(data: seq<byte>) | Silent

  datatype Event = DriveState(motor: Motor, data: seq<byte>) | Disconnect(motor: Motor) | Connect(motor: Motor)

  datatype Bus = Bus(lastSeen: set<Motor>, missingSince: map<Motor, int>, cache: map<Motor, seq<byte>>)

  /** How the search for new motors ended; an abandoned one was cut short by a command or an I/O error. */
  datatype Search = NoSearch | Abandoned | Failed | Found(motors: seq<Motor>)

  /** One tick: the iteration order of the known motors, the number of reads before a waiting command
      cut the pass short, the replies, and the time after the pass. */
  datatype Tick = Tick(order: seq<Motor>, cut: Option<nat>, replies: map<Motor, Reply>, now: int, search: Search)

  ghost predicate Enumerates(order: seq<Motor>, motors: set<Motor>) {
    && (forall m :: m in order <==> m in motors)
    && (forall i, j :: 0 <= i < j < |order| ==> order[i] != order[j])
  }

  ghost predicate ValidTick(b: Bus, t: Tick) {
    Enumerates(t.order, b.lastSeen) && (t.cut.Some? ==> t.cut.value < |t.order|)
  }

  function ReplyOf(replies: map<Motor, Reply>, m: Motor): Reply {
    if m in replies then replies[m] else Silent
  }

  /******* The read pass *******/

  /** The image published for one reply, if any. */
  function ImageOf(cache: map<Motor, seq<byte>>, m: Motor, reply: Reply): Option<seq<byte>> {
    match reply
    case Silent => None
    case Answer(d) => if d == [] then None else Some(if m in cache then cache[m] + d else d)
    case ServoFault(d) =>
      if d == [] then None
      else if |d| >= FULL_SIZE then Some(d)
      else if |d| >= RAM_SIZE && m in cache then Some(cache[m] + d)
      else Some([])
  }

  function CacheAfter(cache: map<Motor, seq<byte>>, m: Motor, reply: Reply): map<Motor, seq<byte>> {
    if reply.Answer? && m !in cache && |reply.data| >= EEPROM_SIZE then cache[m := reply.data[..EEPROM_SIZE]] else cache
  }

  function ImageEvents(m: Motor, image: Option<seq<byte>>): seq<Event> {
    if image.None? then [] else [DriveState(m, image.value)]
  }

  datatype PassResult = PassResult(cache: map<Motor, seq<byte>>, responded: set<Motor>, events: seq<Event>)

  /** Reading the motors of `order` one after the other. */
  function ReadPass(cache: map<Motor, seq<byte>>, order: seq<Motor>, replies: map<Motor, Reply>): PassResult {
    if order == [] then PassResult(cache, {}, [])
    else
      var k := |order| - 1;
      var m, before := order[k], ReadPass(cache, order[..k], replies);
      var reply := ReplyOf(replies, m);
      PassResult(CacheAfter(before.cache, m, reply),
                 before.responded + (if reply.Silent? then {} else {m}),
                 before.events + ImageEvents(m, ImageOf(before.cache, m, reply)))
  }

  /******* The grace window *******/

  function FirstMissed(b: Bus, m: Motor, now: int): int {
    if m in b.missingSince then b.missingSince[m] else now
  }

  predicate Expired(b: Bus, m: Motor, now: int) {
    now - FirstMissed(b, m, now) >= DISCONNECT_GRACE_MS
  }

  datatype Grace = Grace(missingSince: map<Motor, int>, cache: map<Motor, seq<byte>>, seen: set<Motor>,
      gone: seq<Motor>)

  function GraceStep(g: Grace, m: Motor, responded: set<Motor>, now: int): Grace {
    if m in responded then g
    else
      var first := if m in g.missingSince then g.missingSince[m] else now;
      if now - first >= DISCONNECT_GRACE_MS then Grace(g.missingSince - {m}, g.cache - {m}, g.seen, g.gone + [m])
      else g.(missingSince := g.missingSince[m := first], seen := g.seen + {m})
  }

  /** The loop over the motors that did not answer. */
  function GracePass(g: Grace, order: seq<Motor>, responded: set<Motor>, now: int): Grace {
    if order == [] then g
    else GraceStep(GracePass(g, order[..|order| - 1], responded, now), order[|order| - 1], responded, now)
  }

  function Disconnects(motors: seq<Motor>): seq<Event> {
    seq(|motors|, i requires 0 <= i < |motors| => Disconnect(motors[i]))
  }

  function Connects(motors: seq<Motor>): seq<Event> {
    seq(|motors|, i requires 0 <= i < |motors| => Connect(motors[i]))
  }

  datatype Outcome = Outcome(bus: Bus, events: seq<Event>)

  /** What one tick leaves behind and publishes. */
  function ScanOutcome(b: Bus, t: Tick): Outcome
    requires t.cut.Some? ==> t.cut.value <= |t.order|
  {
    if t.cut.Some? then
      var part := ReadPass(b.cache, t.order[..t.cut.value], t.replies);
      Outcome(b.(cache := part.cache), part.events)
    else
      var pass := ReadPass(b.cache, t.order, t.replies);
      var g := GracePass(Grace(b.missingSince, pass.cache, pass.responded, []), t.order, pass.responded, t.now);
      var found := if t.search.Found? then t.search.motors else [];
      Outcome(Bus(if t.search.Abandoned? then b.lastSeen else g.seen + (set m | m in found),
                  g.missingSince - pass.responded, g.cache),
              pass.events + Disconnects(g.gone) + Connects(found))
  }

  /** The worker object. */
  class BusWorker {
    var lastSeen: set<Motor>
    var missingSince: map<Motor, int>
    var eepromCache: map<Motor, seq<byte>>

    function View(): Bus
      reads this
    {
      Bus(lastSeen, missingSince, eepromCache)
    }

    /** The driver builds a new port, with an empty cache, for every worker. */
    constructor ()
      ensures View() == Bus({}, map[], map[])
    {
      lastSeen, missingSince, eepromCache := {}, map[], map[];
    }

    /** One motor's read and what the worker makes of it. */
    method ReadMotor(m: Motor, reply: Reply) returns (seen: bool, events: seq<Event>)
      modifies this`eepromCache
      ensures seen == !reply.Silent?
      ensures eepromCache == CacheAfter(old(eepromCache), m, reply)
      ensures events == ImageEvents(m, ImageOf(old(eepromCache), m, reply))
    {
      events := [];
      var cached := if m in eepromCache then Some(eepromCache[m]) else None;
      match reply {
        case Answer(data) =>
          seen := true;
          if data == [] {
            return;
          }
          var final;
          if cached.Some? {
            final := cached.value + data;
          } else {
            if |data| >= EEPROM_SIZE {
              eepromCache := eepromCache[m := data[..EEPROM_SIZE]];
            }
            final := data;
          }
          events := [DriveState(m, final)];
        case ServoFault(data) =>
          seen := true;
          if data != [] {
            var final;
            if |data| >= FULL_SIZE {
              final := data;
            } else if |data| >= RAM_SIZE {
              final := if cached.Some? then cached.value + data else [];
            } else {
              final := [];
            }
            events := [DriveState(m, final)];
          }
        case Silent =>
          seen := false;
      }
    }

    /** The read pass, up to the cut; `whole` says whether it was completed. */
    method ReadAll(t: Tick) returns (whole: bool, currentlySeen: set<Motor>, events: seq<Event>)
      requires t.cut.Some? ==> t.cut.value < |t.order|
      modifies this`eepromCache
      ensures whole == t.cut.None?
      ensures PassResult(eepromCache, currentlySeen, events)
           == ReadPass(old(eepromCache), if t.cut.Some? then t.order[..t.cut.value] else t.order, t.replies)
    {
      hide CacheAfter, ImageOf, ImageEvents;
      currentlySeen := {};
      events := [];
      for i := 0 to |t.order|
        invariant t.cut.Some? ==> i <= t.cut.value
        invariant PassResult(eepromCache, currentlySeen, events) == ReadPass(old(eepromCache), t.order[..i], t.replies)
      {
        if t.cut == Some(i) {
          return false, currentlySeen, events;
        }
        assert t.order[..i + 1][..i] == t.order[..i];
        var m := t.order[i];
        var seen, image := ReadMotor(m, ReplyOf(t.replies, m));
        if seen {
          currentlySeen := currentlySeen + {m};
        }
        events := events + image;
      }
      assert t.order[..|t.order|] == t.order;
      whole := true;
    }

    /** The grace window for the motors that did not answer. */
    method DropExpired(order: seq<Motor>, responded: set<Motor>, now: int)
        returns (currentlySeen: set<Motor>, events: seq<Event>)
      modifies this`eepromCache, this`missingSince
      ensures var g := GracePass(Grace(old(missingSince), old(eepromCache), responded, []), order, responded, now);
        && missingSince == g.missingSince && eepromCache == g.cache
        && currentlySeen == g.seen && events == Disconnects(g.gone)
    {
      currentlySeen := responded;
      events := [];
      ghost var start := Grace(missingSince, eepromCache, responded, []);
      ghost var gone: seq<Motor> := [];
      for i := 0 to |order|
        invariant Grace(missingSince, eepromCache, currentlySeen, gone) == GracePass(start, order[..i], responded, now)
        invariant events == Disconnects(gone)
      {
        assert order[..i + 1][..i] == order[..i];
        var m := order[i];
        if m !in responded {
          var firstMissed := if m in missingSince then missingSince[m] else now;
          missingSince := missingSince[m := firstMissed];
          if now - firstMissed >= DISCONNECT_GRACE_MS {
            eepromCache := eepromCache - {m};
            missingSince := missingSince - {m};
            events := events + [Disconnect(m)];
            gone := gone + [m];
          } else {
            currentlySeen := currentlySeen + {m};
          }
        }
      }
      assert order[..|order|] == order;
    }

    /** `scan_motors`. */
    method ScanMotors(t: Tick) returns (events: seq<Event>)
      requires ValidTick(View(), t)
      modifies this
      ensures Outcome(View(), events) == ScanOutcome(old(View()), t)
    {
      hide ReadPass, GracePass;
      var whole, responded, images := ReadAll(t);
      if !whole {
        return images;
      }
      var currentlySeen, drops := DropExpired(t.order, responded, t.now);
      missingSince := missingSince - responded;
      events := images + drops;
      assert Connects([]) == [] && events + [] == events;
      if t.search.Found? {
        lastSeen := currentlySeen + set m | m in t.search.motors;
        events := events + Connects(t.search.motors);
      } else if !t.search.Abandoned? {
        lastSeen := currentlySeen;
      }
    }
  }
}
