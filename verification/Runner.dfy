/**
 Chunked execution: how far a run goes, in what steps, and what it hands over on the way.

 `Drive` is the whole of `SpurRunner.run` after start-up as a function: one delivery for each
 awaited `on_chunk` call, and how the run ended. `Uninterrupted` is the reference: the same model
 run in one piece. The main result is `ChunkedRefinesSingleShot`.
 */
module Runner {
  import opened Wrappers
  import opened Json
  import opened Simulation

  // The simulator, and the two settings the runner reads.
  datatype Setup = Setup(simulator: Simulator, chunkCount: int, horizon: int)

  /***************************************** The horizon *****************************************/

  predicate HasDeletionTime(tour: Json) {
    tour.Object? && Get(tour.fields, "deletion_time").Number?
  }

  // The deletion times of a project's tours, or None where reading them raises. Iterating over an
  // empty string or object finds no tours.
  function DeletionTimes(tours: Json): Option<seq<int>> {
    match tours
    case List(items) =>
      if forall i | 0 <= i < |items| :: HasDeletionTime(items[i])
      then Some(seq(|items|, i requires 0 <= i < |items| && HasDeletionTime(items[i]) =>
                               Get(items[i].fields, "deletion_time").n))
      else None
    case Text(s) => if s == "" then Some([]) else None
    case Object(fields) => if fields == map[] then Some([]) else None
    case _ => None
  }

  function Max(a: int, b: int): int { if a < b then b else a }

  function Min(a: int, b: int): int { if b < a then b else a }

  function Latest(times: seq<int>): (r: int)
    requires times != []
    ensures r in times && forall t :: t in times ==> t <= r
  {
    if |times| == 1 then times[0]
    else
      assert times == [times[0]] + times[1..];
      Max(times[0], Latest(times[1..]))
  }

  function DeriveUntil(spec: Spec, default: int): Option<int> {
    match DeletionTimes(if "tours" in spec then spec["tours"] else List([]))
    case None => None
    case Some(times) => Some(if times == [] then default else Latest(times))
  }

  // The target fixed when a run is submitted, and again the runner's own: a time that is given,
  // zero included, stands; otherwise it is derived.
  function Target(until: Option<int>, spec: Spec, default: int): Option<int> {
    if until.Some? then until else DeriveUntil(spec, default)
  }

  // The time the worker passes on: what was fixed at submission, or for a row from before that
  // was recorded, what was requested.
  function WorkerUntil(untilTarget: Option<int>, requested: Option<int>): Option<int> {
    if untilTarget.Some? then untilTarget else requested
  }

  /** Submission, worker and runner agree on how far a run goes, whether or not the row records
      it; one that is recorded stands even if the settings have changed since; and a derived target is
      the latest deletion time, or the default without tours. */
  lemma HorizonsAgree(requested: Option<int>, spec: Spec, default: int, default': int)
    ensures var fixed := Target(requested, spec, default);
            && Target(WorkerUntil(None, requested), spec, default) == fixed
            && (fixed.Some? ==> Target(WorkerUntil(fixed, requested), spec, default') == fixed)
    ensures requested.Some? ==> Target(requested, spec, default) == requested
    ensures requested.None? && "tours" !in spec ==> Target(requested, spec, default) == Some(default)
    ensures requested.None? && "tours" in spec && !spec["tours"].List? ==>
              Target(requested, spec, default)
              == if spec["tours"] == Text("") || spec["tours"] == Object(map[]) then Some(default) else None
    ensures requested.None? && "tours" in spec && spec["tours"].List? ==>
              match Target(requested, spec, default)
              case None => exists i | 0 <= i < |spec["tours"].items| :: !HasDeletionTime(spec["tours"].items[i])
              case Some(t) =>
                && (spec["tours"].items == [] ==> t == default)
                && (forall i | 0 <= i < |spec["tours"].items| ::
                      && HasDeletionTime(spec["tours"].items[i])
                      && Get(spec["tours"].items[i].fields, "deletion_time").n <= t)
                && (spec["tours"].items != [] ==> exists i | 0 <= i < |spec["tours"].items| ::
                      && spec["tours"].items[i].Object?
                      && Get(spec["tours"].items[i].fields, "deletion_time") == Number(t))
  {
    if requested.None? && "tours" in spec && spec["tours"].List? {
      var items := spec["tours"].items;
      var times := DeletionTimes(spec["tours"]);
      if times.Some? {
        forall i | 0 <= i < |items|
          ensures items[i].Object? && Get(items[i].fields, "deletion_time") == Number(times.value[i])
        {
        }
        if items != [] {
          var t := Latest(times.value);
          var i :| 0 <= i < |times.value| && times.value[i] == t;
          assert forall j | 0 <= j < |items| :: times.value[j] in times.value;
          assert Get(items[i].fields, "deletion_time") == Number(t);
        }
      }
    }
  }

  /***************************************** Chunk sizes *****************************************/

  // Python's `//`.
  function FloorDiv(a: int, b: int): int
    requires b != 0
  {
    if b > 0 then a / b else (-a) / (-b)
  }

  // A requested size, where zero counts as none; or one that makes about `count` chunks. None
  // where the division raises.
  function ChunkSize(requested: Option<int>, target: int, count: int): Option<int> {
    if requested.Some? && requested.value != 0 then requested
    else if count == 0 then None
    else Some(Max(1, FloorDiv(target, count)))
  }

  /** The default size is the target divided by the count, rounded down for either sign, but never less
      than 1; a division by zero raises. */
  lemma DefaultSizeRoundsDown(requested: Option<int>, target: int, count: int)
    requires requested.None? || requested == Some(0)
    ensures count == 0 <==> ChunkSize(requested, target, count).None?
    ensures count != 0 ==>
              var size := ChunkSize(requested, target, count).value;
              exists q ::
                && size == (if q < 1 then 1 else q)
                && (0 < count ==> q * count <= target < q * count + count)
                && (count < 0 ==> q * count + count < target <= q * count)
  {
    if 0 < count {
      var q := target / count;
      assert q * count <= target < q * count + count;
    } else if count < 0 {
      var q := (-target) / (-count);
      assert q * (-count) <= -target < q * (-count) + (-count);
      assert q * (-count) == -(q * count);
    }
  }

  // How many chunks of size `c` it takes to cover a positive distance.
  function Chunks(distance: int, c: int): int
    requires c > 0
  {
    (distance + c - 1) / c
  }

  lemma OneChunkLess(distance: int, c: int)
    requires 0 < c
    ensures 0 < distance <= c ==> Chunks(distance, c) == 1
    ensures Chunks(distance, c) == 1 + Chunks(distance - c, c)
    ensures Chunks(0, c) == 0
  {
    var x := distance - 1;
    assert (x + c) / c == x / c + 1 by {
      assert x + c == (x / c + 1) * c + x % c by {
        assert x == (x / c) * c + x % c;
      }
      DivIs(x + c, c, x / c + 1, x % c);
    }
    assert (distance - c) + c - 1 == x && distance + c - 1 == x + c;
    if 0 < distance <= c {
      DivIs(distance + c - 1, c, 1, distance - 1);
    }
    DivIs(c - 1, c, 0, c - 1);
  }

  lemma AtLeastOnce(k: int, c: int)
    requires 0 < k && 0 < c
    ensures c <= k * c && k <= k * c
  {
    assert k * c == c + (k - 1) * c;
    assert k * c == k + k * (c - 1);
  }

  lemma DivIs(a: int, c: int, q: int, r: int)
    requires 0 < c && 0 <= r < c && a == q * c + r
    ensures a / c == q
  {
    var k := q - a / c;
    assert k * c == q * c - (a / c) * c;
    assert (-k) * c == -(k * c);
    if k > 0 {
      AtLeastOnce(k, c);
    } else if k < 0 {
      AtLeastOnce(-k, c);
    }
  }

  /** Without a requested size, a run to `target` from 0 takes between `count` and
      `2 * count - 1` chunks, or exactly `target` of them when that is fewer than `count`. */
  lemma DefaultChunkCount(target: int, count: int, requested: Option<int>)
    requires 0 < count && 0 < target && (requested.None? || requested == Some(0))
    ensures var size := ChunkSize(requested, target, count);
            && size.Some? && 0 < size.value
            && (count <= target ==> count <= Chunks(target, size.value) <= 2 * count - 1)
            && (target < count ==> Chunks(target, size.value) == target)
  {
    if target < count {
      DivIs(target, count, 0, target);
      DivIs(target, 1, target, 0);
    } else {
      DivIs(target, count, target / count, target % count);
      if target / count < 1 {
        NotPositive(target / count, count);
      }
      BetweenOnceAndTwice(target, count, target / count, target % count);
    }
  }

  lemma NotPositive(k: int, c: int)
    requires k <= 0 && 0 < c
    ensures k * c <= 0
  {
  }

  lemma Grows(a: int, b: int, c: int)
    requires a <= b && 0 <= c
    ensures a * c <= b * c
  {
    assert b * c == a * c + (b - a) * c;
  }

  // Covering `q * count + r` in chunks of `q` takes `count` of them and at most `r` more.
  lemma BetweenOnceAndTwice(target: int, count: int, q: int, r: int)
    requires 0 < count && 0 < q && 0 <= r < count && target == q * count + r
    ensures count <= Chunks(target, q) <= count + r
  {
    var n := Chunks(target, q);
    var rest := (target + q - 1) % q;
    assert target + q - 1 == n * q + rest;
    assert q * count == count * q;
    assert (count - 1) * q == count * q - q;
    assert (count + r + 1) * q == count * q + r * q + q;
    assert r <= r * q by {
      if r > 0 {
        AtLeastOnce(r, q);
      }
    }
    if n < count {
      Grows(n, count - 1, q);
    } else if n > count + r {
      Grows(count + r + 1, n, q);
    }
  }

  /******************************************** Start-up ********************************************/

  datatype Launch = Launched(sim: Sim, batch: seq<SimEvent>, target: int, chunk: int) | LaunchFailed

  // Everything `run` does before its loop: build and start the model, then settle target and
  // chunk. Any of it can raise.
  function Launching(setup: Setup, spec: Spec, until: Option<int>, chunkSize: Option<int>, seed: int): Launch {
    match setup.simulator.build(spec, seed)
    case Unbuildable => LaunchFailed
    case Built(env, notices, timers) =>
      var target := Target(until, spec, setup.horizon);
      if target.None? then LaunchFailed
      else
        var chunk := ChunkSize(chunkSize, target.value, setup.chunkCount);
        if chunk.None? then LaunchFailed
        else Launched(Start(env, timers), Stamp(0, notices), target.value, chunk.value)
  }

  /** A launch is of the model that the simulator builds from just this spec and this seed, started at 0,
      with what starting it reported in the batch; it goes to the time given, or to the derived one, in
      chunks of the size given unless that is zero; and it fails only where one of these raises. */
  lemma LaunchesAreOfSpecAndSeed(setup: Setup, spec: Spec, until: Option<int>, chunkSize: Option<int>, seed: int)
    ensures var l := Launching(setup, spec, until, chunkSize, seed);
            var sized := chunkSize.Some? && chunkSize.value != 0;
            match setup.simulator.build(spec, seed)
            case Unbuildable => l == LaunchFailed
            case Built(env, notices, timers) =>
              && (l.Launched? <==>
                    (until.Some? || DeriveUntil(spec, setup.horizon).Some?) && (sized || setup.chunkCount != 0))
              && (l.Launched? ==>
                    && l.sim.env == env && l.sim.now == 0 && multiset(l.sim.queue) == Scheduled(0, timers)
                    && l.sim == Start(env, timers)
                    && |l.batch| == |notices|
                    && (forall i :: 0 <= i < |notices| ==> l.batch[i].time == 0 && l.batch[i].notice == notices[i])
                    && Some(l.target) == (if until.Some? then until else DeriveUntil(spec, setup.horizon))
                    && (sized ==> l.chunk == chunkSize.value))
  {
    match setup.simulator.build(spec, seed)
    case Unbuildable =>
    case Built(env, notices, timers) => NothingLostInScheduling([], 0, timers);
  }

  /****************************************** The chunk loop ******************************************/

  // One awaited `on_chunk(now, events)`.
  datatype Delivery = Delivery(now: int, events: seq<SimEvent>)

  // A turn of the loop that was not stopped: what it delivers and the model after it, or an
  // error, in which case what is in the batch is never delivered, or no end to it.
  datatype Turn = Flushed(delivery: Delivery, sim: Sim) | Aborted | Endless

  ghost function ChunkTurn(m: Simulator, sim: Sim, batch: seq<SimEvent>, target: int, chunk: int): (turn: Turn)
    ensures turn.Flushed? ==> sim.now < turn.sim.now == turn.delivery.now == Min(sim.now + chunk, target)
  {
    match RunUntil(m, sim, Min(sim.now + chunk, target))
    case Reached(sim', events) => Flushed(Delivery(sim'.now, batch + events), sim')
    case Raised(_) => Aborted
    case Hangs => Endless
  }

  // The last flush, after `log_current_state()`.
  function FinalTurn(m: Simulator, sim: Sim, batch: seq<SimEvent>): Turn {
    match m.locate(sim.env)
    case Report(notices) => Flushed(Delivery(sim.now, batch + Stamp(sim.now, notices)), sim)
    case Unreportable => Aborted
  }

  datatype Verdict = Completed | Cancelled | Failed | NoEnd

  datatype Course = Course(deliveries: seq<Delivery>, verdict: Verdict)

  // What each successive `is_cancelled()` answers.
  type Polls = nat -> bool

  /** The loop of `run` from a given point on; `asked` polls have been answered before. */
  ghost function Drive(m: Simulator, sim: Sim, batch: seq<SimEvent>, target: int, chunk: int,
                       polls: Polls, asked: nat): Course
    decreases Max(0, target - sim.now)
  {
    if sim.now < target then
      if polls(asked) then Course([Delivery(sim.now, batch)], Cancelled)
      else
        match ChunkTurn(m, sim, batch, target, chunk)
        case Flushed(delivery, sim') =>
          var rest := Drive(m, sim', [], target, chunk, polls, asked + 1);
          Course([delivery] + rest.deliveries, rest.verdict)
        case Aborted => Course([], Failed)
        case Endless => Course([], NoEnd)
    else
      match FinalTurn(m, sim, batch)
      case Flushed(delivery, _) => Course([delivery], Completed)
      case _ => Course([], Failed)
  }

  function Delivered(deliveries: seq<Delivery>): seq<SimEvent> {
    if deliveries == [] then [] else deliveries[0].events + Delivered(deliveries[1..])
  }

  lemma {:induction false} DeliveredAppend(deliveries: seq<Delivery>, d: Delivery)
    ensures Delivered(deliveries + [d]) == Delivered(deliveries) + d.events
  {
    if deliveries == [] {
      assert [d][1..] == [];
    } else {
      assert (deliveries + [d])[1..] == deliveries[1..] + [d];
      DeliveredAppend(deliveries[1..], d);
    }
  }

  lemma DeliveredFirst(d: Delivery, rest: seq<Delivery>)
    ensures Delivered([d] + rest) == d.events + Delivered(rest)
  {
    assert ([d] + rest)[1..] == rest;
  }

  /************************************** One uninterrupted run **************************************/

  /** The same model run in one piece from `sim` to `time`, with what is already in the batch in
      front: the reference that chunking has to agree with. */
  ghost function Uninterrupted(m: Simulator, sim: Sim, batch: seq<SimEvent>, time: int): Outcome {
    if sim.now < time then Prefixed(batch, RunUntil(m, sim, time)) else Reached(sim, batch)
  }

  /** The reference for a whole run: the model that the simulator builds from this spec and seed, run in
      one piece to `time`. */
  ghost function Reference(m: Simulator, spec: Spec, seed: int, time: int): Outcome {
    match m.build(spec, seed)
    case Unbuildable => Raised([])
    case Built(env, notices, timers) => Uninterrupted(m, Start(env, timers), Stamp(0, notices), time)
  }

  // Going on from a point that an uninterrupted run passes through is that run.
  lemma Resume(m: Simulator, sim: Sim, batch: seq<SimEvent>, mid: int, time: int)
    requires mid <= time && Uninterrupted(m, sim, batch, mid).Reached?
    ensures var r := Uninterrupted(m, sim, batch, mid);
            Uninterrupted(m, sim, batch, time) == Uninterrupted(m, r.sim, r.events, time)
  {
    if sim.now < mid < time {
      Composition(m, sim, mid, time);
      var first := RunUntil(m, sim, mid);
      PrefixedTwice(batch, first.events, RunUntil(m, first.sim, time));
    }
  }

  // A run that raises or hangs on the way to `mid` does so on the way to anything later.
  lemma StopsEarlier(m: Simulator, sim: Sim, batch: seq<SimEvent>, mid: int, time: int)
    requires sim.now < mid <= time && !RunUntil(m, sim, mid).Reached?
    ensures Uninterrupted(m, sim, batch, time) == Prefixed(batch, RunUntil(m, sim, mid))
  {
    if mid < time {
      Composition(m, sim, mid, time);
    }
  }

  lemma BatchFirst(m: Simulator, sim: Sim, batch: seq<SimEvent>, time: int)
    ensures Uninterrupted(m, sim, batch, time) == Prefixed(batch, Uninterrupted(m, sim, [], time))
  {
    if sim.now < time {
      NothingFirst(RunUntil(m, sim, time));
    } else {
      assert batch + [] == batch;
    }
  }

  // What is left after one chunk is the rest of the same uninterrupted run.
  lemma AfterOneChunk(m: Simulator, sim: Sim, batch: seq<SimEvent>, target: int, chunk: int, time: int)
    requires sim.now < target
    requires var turn := ChunkTurn(m, sim, batch, target, chunk); turn.Flushed? && turn.sim.now <= time
    ensures var turn := ChunkTurn(m, sim, batch, target, chunk);
            Uninterrupted(m, sim, batch, time) == Prefixed(turn.delivery.events, Uninterrupted(m, turn.sim, [], time))
  {
    var turn := ChunkTurn(m, sim, batch, target, chunk);
    Resume(m, sim, batch, turn.sim.now, time);
    BatchFirst(m, turn.sim, turn.delivery.events, time);
  }

  /**************************************** The main results ****************************************/

  function LastNow(course: Course): int
    requires course.deliveries != []
  {
    course.deliveries[|course.deliveries| - 1].now
  }

  // What was delivered is exactly the uninterrupted run cut at the last clock delivered.
  ghost predicate CutAtLastClock(m: Simulator, sim: Sim, batch: seq<SimEvent>, course: Course)
    requires course.deliveries != []
  {
    var cut := Uninterrupted(m, sim, batch, LastNow(course));
    sim.now <= LastNow(course) && cut.Reached? && Delivered(course.deliveries) == cut.events
  }

  /** How a course has to relate to the uninterrupted run, by how it ended. */
  ghost predicate Agrees(m: Simulator, sim: Sim, batch: seq<SimEvent>, target: int, chunk: int, course: Course) {
    var whole := Uninterrupted(m, sim, batch, target);
    match course.verdict
    case Completed =>
      && whole.Reached?
      && course.deliveries != []
      && LastNow(course) == whole.sim.now == Max(sim.now, target)
      && m.locate(whole.sim.env).Report?
      && Delivered(course.deliveries) == whole.events + Stamp(whole.sim.now, m.locate(whole.sim.env).notices)
    case Cancelled =>
      && course.deliveries != []
      && LastNow(course) < target
      && CutAtLastClock(m, sim, batch, course)
    case Failed =>
      && (course.deliveries != [] ==> LastNow(course) <= target && CutAtLastClock(m, sim, batch, course))
      && (|| whole.Raised?
          || (whole.Reached? && m.locate(whole.sim.env).Unreportable?)
          || (chunk <= 0 && sim.now < target))
    case NoEnd =>
      && (course.deliveries != [] ==> LastNow(course) <= target && CutAtLastClock(m, sim, batch, course))
      && whole.Hangs?
  }

  /** Whatever the chunk size and whenever it is cancelled, a chunked run hands over what the
      uninterrupted run produces: all of it and then the current locations if it completes, and
      otherwise that run cut at the last clock handed over. Nothing is dropped, repeated or moved. */
  lemma {:induction false} ChunkedRefinesSingleShot(m: Simulator, sim: Sim, batch: seq<SimEvent>, target: int,
                                                   chunk: int, polls: Polls, asked: nat)
    ensures Agrees(m, sim, batch, target, chunk, Drive(m, sim, batch, target, chunk, polls, asked))
    decreases Max(0, target - sim.now)
  {
    var course := Drive(m, sim, batch, target, chunk, polls, asked);
    if sim.now < target && !polls(asked) {
      var turn := ChunkTurn(m, sim, batch, target, chunk);
      if turn.Flushed? {
        var rest := Drive(m, turn.sim, [], target, chunk, polls, asked + 1);
        ChunkedRefinesSingleShot(m, turn.sim, [], target, chunk, polls, asked + 1);
        OneChunkAgrees(m, sim, batch, target, chunk, rest);
      } else if 0 < chunk {
        StopsEarlier(m, sim, batch, Min(sim.now + chunk, target), target);
      }
    } else {
      DeliveredSingle(course);
    }
  }

  // If the rest of a course agrees with the uninterrupted run, the course with one chunk in front does.
  lemma OneChunkAgrees(m: Simulator, sim: Sim, batch: seq<SimEvent>, target: int, chunk: int, rest: Course)
    requires sim.now < target && ChunkTurn(m, sim, batch, target, chunk).Flushed?
    requires Agrees(m, ChunkTurn(m, sim, batch, target, chunk).sim, [], target, chunk, rest)
    ensures var turn := ChunkTurn(m, sim, batch, target, chunk);
            Agrees(m, sim, batch, target, chunk, Course([turn.delivery] + rest.deliveries, rest.verdict))
  {
    var turn := ChunkTurn(m, sim, batch, target, chunk);
    var course := Course([turn.delivery] + rest.deliveries, rest.verdict);
    DeliveredFirst(turn.delivery, rest.deliveries);
    AfterOneChunk(m, sim, batch, target, chunk, target);
    if rest.deliveries == [] {
      AfterOneChunk(m, sim, batch, target, chunk, turn.sim.now);
      assert course.deliveries == [turn.delivery];
    } else {
      assert LastNow(course) == LastNow(rest);
      if rest.verdict == Completed {
        var whole := Uninterrupted(m, turn.sim, [], target);
        var locations := Stamp(whole.sim.now, m.locate(whole.sim.env).notices);
        assert turn.delivery.events + (whole.events + locations) == (turn.delivery.events + whole.events) + locations;
      } else {
        AfterOneChunk(m, sim, batch, target, chunk, LastNow(course));
      }
    }
  }

  lemma DeliveredSingle(course: Course)
    ensures |course.deliveries| == 1 ==> Delivered(course.deliveries) == course.deliveries[0].events
    ensures |course.deliveries| == 0 ==> Delivered(course.deliveries) == []
  {
    if |course.deliveries| == 1 {
      assert course.deliveries == [course.deliveries[0]] + [];
      DeliveredFirst(course.deliveries[0], []);
      assert course.deliveries[0].events + [] == course.deliveries[0].events;
    }
  }

  // How a run ends when nobody cancels it depends on the uninterrupted run alone.
  ghost function UncancelledVerdict(m: Simulator, whole: Outcome): Verdict {
    match whole
    case Reached(sim, _) => if m.locate(sim.env).Report? then Completed else Failed
    case Raised(_) => Failed
    case Hangs => NoEnd
  }

  lemma {:induction false} EndsAsSingleShot(m: Simulator, sim: Sim, batch: seq<SimEvent>, target: int, chunk: int,
                                            polls: Polls, asked: nat)
    requires (0 < chunk || target <= sim.now) && forall k: nat :: asked <= k ==> !polls(k)
    ensures Drive(m, sim, batch, target, chunk, polls, asked).verdict
            == UncancelledVerdict(m, Uninterrupted(m, sim, batch, target))
    decreases Max(0, target - sim.now)
  {
    if target <= sim.now {
    } else {
      var turn := ChunkTurn(m, sim, batch, target, chunk);
      if turn.Flushed? {
        EndsAsSingleShot(m, turn.sim, [], target, chunk, polls, asked + 1);
        AfterOneChunk(m, sim, batch, target, chunk, target);
      } else {
        StopsEarlier(m, sim, batch, Min(sim.now + chunk, target), target);
      }
    }
  }

  /** The chunk size does not matter: two runs of one model that are not cancelled end the same
      way, and if they complete they hand over the same events at the same final clock. */
  lemma ChunkSizeDoesNotMatter(m: Simulator, sim: Sim, batch: seq<SimEvent>, target: int,
                               chunk: int, polls: Polls, chunk': int, polls': Polls)
    requires 0 < chunk && 0 < chunk'
    requires forall k: nat :: !polls(k) && !polls'(k)
    ensures var a, b := Drive(m, sim, batch, target, chunk, polls, 0), Drive(m, sim, batch, target, chunk', polls', 0);
            && a.verdict == b.verdict
            && (a.verdict == Completed ==> Delivered(a.deliveries) == Delivered(b.deliveries)
                                           && a.deliveries != [] && b.deliveries != [] && LastNow(a) == LastNow(b))
  {
    EndsAsSingleShot(m, sim, batch, target, chunk, polls, 0);
    EndsAsSingleShot(m, sim, batch, target, chunk', polls', 0);
    ChunkedRefinesSingleShot(m, sim, batch, target, chunk, polls, 0);
    ChunkedRefinesSingleShot(m, sim, batch, target, chunk', polls', 0);
  }

  // How many `model.run` calls the loop makes from a given point on, one that raises or never
  // returns included.
  ghost function CallsMade(m: Simulator, sim: Sim, target: int, chunk: int, polls: Polls, asked: nat): nat
    decreases Max(0, target - sim.now)
  {
    if target <= sim.now || polls(asked) then 0
    else
      match RunUntil(m, sim, Min(sim.now + chunk, target))
      case Reached(sim', _) => 1 + CallsMade(m, sim', target, chunk, polls, asked + 1)
      case _ => 1
  }

  /** A completed run made exactly one `model.run` call for each chunk of the way, a cancelled one
      made fewer, and no run makes more. Every call that returns is followed by its delivery, and
      completed and cancelled runs make one more. */
  lemma {:induction false} OneDeliveryPerChunk(m: Simulator, sim: Sim, batch: seq<SimEvent>, target: int, chunk: int,
                                               polls: Polls, asked: nat)
    requires 0 < chunk && sim.now <= target
    ensures var calls := CallsMade(m, sim, target, chunk, polls, asked);
            var course := Drive(m, sim, batch, target, chunk, polls, asked);
            && calls <= Chunks(target - sim.now, chunk)
            && match course.verdict
               case Completed => calls == Chunks(target - sim.now, chunk) && |course.deliveries| == calls + 1
               case Cancelled => calls < Chunks(target - sim.now, chunk) && |course.deliveries| == calls + 1
               case Failed => calls - 1 <= |course.deliveries| <= calls
               case NoEnd => |course.deliveries| == calls - 1
    decreases Max(0, target - sim.now)
  {
    OneChunkLess(target - sim.now, chunk);
    if sim.now == target {
    } else {
      ChunksPositive(target - sim.now, chunk);
      var turn := ChunkTurn(m, sim, batch, target, chunk);
      if !polls(asked) && turn.Flushed? {
        OneDeliveryPerChunk(m, turn.sim, [], target, chunk, polls, asked + 1);
      }
    }
  }

  // Covering `distance` in chunks of `c` takes `n` of them: `n - 1` are too few.
  lemma ChunksCover(distance: int, c: int)
    requires 0 < c && 0 < distance
    ensures var n := Chunks(distance, c); 1 <= n && (n - 1) * c < distance <= n * c
  {
    var n := Chunks(distance, c);
    ChunksPositive(distance, c);
    assert distance + c - 1 == n * c + (distance + c - 1) % c;
    assert (n - 1) * c == n * c - c;
  }

  /** A run that asks for chunks of size `c` makes as many `model.run` calls as chunks of that size it takes
      to get from 0 to its target, if it completes, and never more. */
  lemma RequestedChunkCount(setup: Setup, spec: Spec, until: Option<int>, c: int, seed: int, polls: Polls)
    requires 0 < c && Launching(setup, spec, until, Some(c), seed).Launched?
    requires 0 < Launching(setup, spec, until, Some(c), seed).target
    ensures var l := Launching(setup, spec, until, Some(c), seed);
            var calls := CallsMade(setup.simulator, l.sim, l.target, l.chunk, polls, 0);
            && (calls - 1) * c < l.target
            && (Drive(setup.simulator, l.sim, l.batch, l.target, l.chunk, polls, 0).verdict == Completed ==>
                  l.target <= calls * c)
  {
    var l := Launching(setup, spec, until, Some(c), seed);
    OneDeliveryPerChunk(setup.simulator, l.sim, l.batch, l.target, l.chunk, polls, 0);
    ChunksCover(l.target, c);
    Grows(CallsMade(setup.simulator, l.sim, l.target, l.chunk, polls, 0) - 1, Chunks(l.target, c) - 1, c);
  }

  lemma {:induction false} ChunksPositive(distance: int, c: int)
    requires 0 < c && 0 < distance
    ensures 1 <= Chunks(distance, c)
    decreases distance
  {
    OneChunkLess(distance, c);
    if distance <= c {
    } else {
      ChunksPositive(distance - c, c);
    }
  }
}
