/**
 * The timer-driven generator input (`lib/input/bloblang.go`): configuration
 * checking and count normalisation, the zone handling of cron expressions, and
 * the read state machine over `remaining`, `firstIsFree` and the ticker.
 *
 * Parsing durations, loading time zones, parsing cron specifications, the time
 * until the next cron firing and running the mapping are foreign code; they
 * enter as function parameters (construction) or as fields of ReadEnv (reads).
 */
module BloblangInput {
  import opened Wrappers
  import opened Text
  import opened Message

  const MinInt32: int := -0x8000_0000
  const MaxInt32: int := 0x7FFF_FFFF

  /** A positive duration (in nanoseconds): what a cron schedule's next firing is away from now. */
  type Duration = d: int | d > 0 witness 1

  datatype BloblangConfig = BloblangConfig(mapping: string, interval: string, cronExpression: string, count: int)

  /** A parsed cron schedule: the expression handed to the cron parser and its time zone. */
  datatype Schedule = Schedule(expression: string, zone: string)

  /** A `time.Ticker`: its current period and whether it was stopped. */
  datatype Ticker = Ticker(period: int, stopped: bool)

  /** A construction failure: an error value, or a Go panic that the source does not guard against. */
  datatype ConfigError = Failed(msg: string) | Panicked(msg: string)

  // Two literals, so that the verifier sees the first character without walking the whole text.
  const BothSchedulesError := "only one of interval" + " or cron_expression is allowed"
  const NonPositiveTicker := "non-positive interval for NewTicker"
  const SliceOutOfRange := "slice bounds out of range"

  /** The fields of the input that reads look at and update. */
  datatype ReaderState = ReaderState(remaining: int, firstIsFree: bool, timer: Option<Ticker>, schedule: Option<Schedule>)
  {
    /**
     * `remaining` is -1 (no limit) or a count of slots left; cron mode always
     * has a ticker; a ticker's period is positive.
     */
    predicate Valid()
    {
      && -1 <= remaining <= MaxInt32
      && (schedule.Some? ==> timer.Some?)
      && (timer.Some? ==> timer.value.period > 0)
    }
  }

  // ---------------------------------------------------------------------------
  // Construction

  /** Go's conversion `int32(x)`: the low 32 bits of `x` read as two's complement. */
  function ToInt32(x: int): (r: int)
    ensures MinInt32 <= r <= MaxInt32
    ensures (r - x) % 0x1_0000_0000 == 0
    ensures MinInt32 <= x <= MaxInt32 ==> r == x
  {
    (x - MinInt32) % 0x1_0000_0000 + MinInt32
  }

  /** The initial `remaining`: the count truncated to 32 bits, with 0 or less meaning "no limit" (-1). */
  function InitialRemaining(count: int): (r: int)
    ensures r == -1 || 0 < r <= MaxInt32
    ensures 0 < count <= MaxInt32 ==> r == count
    ensures MinInt32 <= count <= 0 ==> r == -1
    ensures r == -1 <==> ToInt32(count) <= 0
    ensures ToInt32(count) > 0 ==> r == ToInt32(count)
  {
    var t := ToInt32(count);
    if t <= 0 then -1 else t
  }

  /** Counts beyond 32 bits wrap: 2^32 + 1 behaves as 1, and 2^31 (negative as int32) as no limit. */
  lemma CountWrapsAt32Bits()
    ensures InitialRemaining(0x1_0000_0001) == 1
    ensures InitialRemaining(0x8000_0000) == -1
    ensures InitialRemaining(0x1_0000_0000) == -1
  {
  }

  /** The expression handed to the cron parser: "TZ=UTC " is put in front unless it already starts with "TZ=". */
  function WithZonePrefix(expr: string): (r: string)
    ensures HasPrefix(r, "TZ=")
    ensures HasPrefix(expr, "TZ=") ==> r == expr
    ensures !HasPrefix(expr, "TZ=") ==> r == "TZ=UTC " + expr
  {
    if HasPrefix(expr, "TZ=") then expr else "TZ=UTC " + expr
  }

  /**
   * The zone name: the text between the first '=' and the first ' '. None
   * stands for the panic of the out-of-range slice when there is no space.
   */
  function ZoneName(prefixed: string): (z: Option<string>)
    ensures ' ' !in prefixed ==> z.None?
    ensures z.Some? ==> ' ' !in z.value
    ensures z.Some? ==> HasPrefix(prefixed[IndexOf(prefixed, '=') + 1..], z.value + " ")
  {
    var end := IndexOf(prefixed, ' ');
    var eq := IndexOf(prefixed, '=');
    if eq + 1 <= end then Some(prefixed[eq + 1..end]) else None
  }

  /** Without a "TZ=" prefix the zone is UTC. */
  lemma {:induction false} DefaultZoneIsUtc(expr: string)
    requires !HasPrefix(expr, "TZ=")
    ensures ZoneName(WithZonePrefix(expr)) == Some("UTC")
  {
    var p := WithZonePrefix(expr);
    assert p[..7] == "TZ=UTC ";
    assert p[6] == ' ' && ' ' !in p[..6];
    assert p[2] == '=' && '=' !in p[..2];
    assert IndexOf(p, ' ') == 6;
    assert IndexOf(p, '=') == 2;
    assert p[3..6] == "UTC";
  }

  /**
   * With a "TZ=" prefix the zone is the text after "TZ=" up to the first space;
   * with no space at all, the slice panics.
   */
  lemma {:induction false} GivenZone(expr: string)
    requires HasPrefix(expr, "TZ=")
    ensures ZoneName(WithZonePrefix(expr)).None? <==> ' ' !in expr
    ensures ' ' in expr ==> 3 <= IndexOf(expr, ' ') && ZoneName(WithZonePrefix(expr)) == Some(expr[3..IndexOf(expr, ' ')])
  {
    assert WithZonePrefix(expr) == expr;
    PrefixedIndices(expr);
  }

  lemma PrefixedIndices(expr: string)
    requires HasPrefix(expr, "TZ=")
    ensures IndexOf(expr, '=') == 2
    ensures IndexOf(expr, ' ') == -1 || IndexOf(expr, ' ') >= 3
  {
    assert expr[..3] == "TZ=";
    assert expr[0] == 'T' && expr[1] == 'Z' && expr[2] == '=';
    assert expr[..2] == "TZ";
  }

  /**
   * `parseCronExpression`: prefix the zone, cut out its name, load the zone,
   * then parse the whole prefixed expression. `loadLocation` and `parseCron`
   * give the error of the foreign call, if any.
   */
  function ParseCronExpression(expr: string, loadLocation: string -> Option<string>, parseCron: string -> Option<string>): (r: Result<Schedule, ConfigError>)
    ensures r.Success? ==> r.value.expression == WithZonePrefix(expr) && Some(r.value.zone) == ZoneName(WithZonePrefix(expr))
    ensures r.Success? ==> loadLocation(r.value.zone).None? && parseCron(r.value.expression).None?
    ensures ZoneName(WithZonePrefix(expr)).None? ==> r == Failure(Panicked(SliceOutOfRange))
    ensures ZoneName(WithZonePrefix(expr)).Some? ==>
      var zone, prefixed := ZoneName(WithZonePrefix(expr)).value, WithZonePrefix(expr);
      && (r.Success? <==> loadLocation(zone).None? && parseCron(prefixed).None?)
      && (loadLocation(zone).Some? ==> r == Failure(Failed(loadLocation(zone).value)))
      && (loadLocation(zone).None? && parseCron(prefixed).Some? ==> r == Failure(Failed(parseCron(prefixed).value)))
  {
    var prefixed := WithZonePrefix(expr);
    match ZoneName(prefixed)
    case None => Failure(Panicked(SliceOutOfRange))
    case Some(zone) =>
      if loadLocation(zone).Some? then Failure(Failed(loadLocation(zone).value))
      else if parseCron(prefixed).Some? then Failure(Failed(parseCron(prefixed).value))
      else Success(Schedule(prefixed, zone))
  }

  /** The message of a construction error: what failed to parse, then the parser's error. */
  function ParseFailure(what: string, e: string): (m: string)
    ensures HasPrefix(m, "failed to parse ")
  {
    var m := "failed to parse " + what + ": " + e;
    assert m == "failed to parse " + (what + ": " + e);
    m
  }

  /** The schedule of the configuration: none without a cron expression, else the parsed one. */
  function CronSchedule(expr: string, loadLocation: string -> Option<string>, parseCron: string -> Option<string>): (r: Result<Option<Schedule>, ConfigError>)
    ensures |expr| == 0 ==> r == Success(None)
    ensures |expr| > 0 && r.Success? ==> r.value.Some? && ParseCronExpression(expr, loadLocation, parseCron) == Success(r.value.value)
    ensures r.Failure? && r.error.Failed? ==> HasPrefix(r.error.msg, "failed to parse ")
    ensures |expr| > 0 ==> var p := ParseCronExpression(expr, loadLocation, parseCron);
      && (p.Success? ==> r == Success(Some(p.value)))
      && (p.Failure? && p.error.Failed? ==> r == Failure(Failed(ParseFailure("cron_expression", p.error.msg))))
      && (p.Failure? && p.error.Panicked? ==> r == Failure(p.error))
  {
    if |expr| == 0 then Success(None)
    else match ParseCronExpression(expr, loadLocation, parseCron)
      case Failure(Failed(e)) => Failure(Failed(ParseFailure("cron_expression", e)))
      case Failure(p) => Failure(p)
      case Success(sched) => Success(Some(sched))
  }

  /**
   * The ticker: in cron mode one running until the first firing; otherwise,
   * with an interval, one with the parsed period (`time.NewTicker` panics on
   * a period that is not positive); otherwise none.
   */
  function TickerOf(cron: Option<Schedule>, interval: string, tillNext: Schedule -> Duration, parseDuration: string -> Result<int, string>): (r: Result<Option<Ticker>, ConfigError>)
    ensures cron.Some? ==> r == Success(Some(Ticker(tillNext(cron.value), false)))
    ensures cron.None? && |interval| == 0 ==> r == Success(None)
    ensures cron.None? && |interval| > 0 && r.Success? ==>
      && parseDuration(interval).Success? && parseDuration(interval).value > 0
      && r.value == Some(Ticker(parseDuration(interval).value, false))
    ensures r.Failure? && r.error.Failed? ==> HasPrefix(r.error.msg, "failed to parse ")
    ensures cron.None? && |interval| > 0 && parseDuration(interval).Failure? ==>
      r == Failure(Failed(ParseFailure("interval", parseDuration(interval).error)))
    ensures cron.None? && |interval| > 0 && parseDuration(interval).Success? ==>
      && (r.Success? <==> parseDuration(interval).value > 0)
      && (parseDuration(interval).value <= 0 ==> r == Failure(Panicked(NonPositiveTicker)))
  {
    if cron.Some? then Success(Some(Ticker(tillNext(cron.value), false)))
    else if |interval| == 0 then Success(None)
    else match parseDuration(interval)
      case Failure(e) => Failure(Failed(ParseFailure("interval", e)))
      case Success(d) => if d <= 0 then Failure(Panicked(NonPositiveTicker)) else Success(Some(Ticker(d, false)))
  }

  /**
   * `newBloblang`. `tillNext` is the time from construction to the schedule's
   * next firing; `parseDuration` is `time.ParseDuration`; `parseMapping`
   * gives the mapping's parse error, if any.
   */
  function NewBloblang(
    conf: BloblangConfig,
    loadLocation: string -> Option<string>,
    parseCron: string -> Option<string>,
    tillNext: Schedule -> Duration,
    parseDuration: string -> Result<int, string>,
    parseMapping: string -> Option<string>
  ): (r: Result<ReaderState, ConfigError>)
    ensures |conf.interval| > 0 && |conf.cronExpression| > 0 ==> r == Failure(Failed(BothSchedulesError))
    ensures r.Success? ==> r.value.Valid() && r.value.firstIsFree
    ensures r.Success? ==> r.value.remaining == InitialRemaining(conf.count)
    ensures r.Success? ==> (r.value.schedule.Some? <==> |conf.cronExpression| > 0)
    ensures r.Success? ==> (r.value.timer.Some? <==> |conf.interval| > 0 || |conf.cronExpression| > 0)
    ensures r.Success? && r.value.timer.Some? ==> !r.value.timer.value.stopped
    ensures r.Success? && |conf.interval| > 0 ==>
      parseDuration(conf.interval).Success? && r.value.timer.value.period == parseDuration(conf.interval).value
    ensures r.Success? && |conf.cronExpression| > 0 ==> r.value.timer.value.period == tillNext(r.value.schedule.value) as int
    ensures r.Success? ==> parseMapping(conf.mapping).None?
    ensures r.Failure? && r.error.Failed? && !(|conf.interval| > 0 && |conf.cronExpression| > 0) ==>
      HasPrefix(r.error.msg, "failed to parse ")
    ensures r.Success? <==>
      && !(|conf.interval| > 0 && |conf.cronExpression| > 0)
      && (|conf.cronExpression| > 0 ==> ParseCronExpression(conf.cronExpression, loadLocation, parseCron).Success?)
      && (|conf.interval| > 0 ==> parseDuration(conf.interval).Success? && parseDuration(conf.interval).value > 0)
      && parseMapping(conf.mapping).None?
  {
    if |conf.interval| > 0 && |conf.cronExpression| > 0 then Failure(Failed(BothSchedulesError))
    else
      var cron := CronSchedule(conf.cronExpression, loadLocation, parseCron);
      if cron.Failure? then Failure(cron.error)
      else
        var timer := TickerOf(cron.value, conf.interval, tillNext, parseDuration);
        if timer.Failure? then Failure(timer.error)
        else if parseMapping(conf.mapping).Some? then Failure(Failed(ParseFailure("mapping", parseMapping(conf.mapping).value)))
        else Success(ReaderState(InitialRemaining(conf.count), true, timer.value, cron.value))
  }

  /** Interval and cron expression are mutually exclusive: construction refuses the pair, and only the pair, with that error. */
  lemma ExclusiveSchedules(
    conf: BloblangConfig,
    loadLocation: string -> Option<string>,
    parseCron: string -> Option<string>,
    tillNext: Schedule -> Duration,
    parseDuration: string -> Result<int, string>,
    parseMapping: string -> Option<string>
  )
    ensures NewBloblang(conf, loadLocation, parseCron, tillNext, parseDuration, parseMapping) == Failure(Failed(BothSchedulesError))
        <==> |conf.interval| > 0 && |conf.cronExpression| > 0
  {
    var r := NewBloblang(conf, loadLocation, parseCron, tillNext, parseDuration, parseMapping);
    if !(|conf.interval| > 0 && |conf.cronExpression| > 0) && r.Failure? && r.error.Failed? {
      NotParseFailure(r.error.msg);
    }
  }

  lemma NotParseFailure(msg: string)
    requires HasPrefix(msg, "failed to parse ")
    ensures msg != BothSchedulesError
  {
    assert msg[0] == 'f';
    assert BothSchedulesError[0] == 'o';
  }

  // ---------------------------------------------------------------------------
  // Reads

  /** What the select on the ticker channel and the context observed. */
  datatype WaitOutcome = Tick | ChannelClosed | Cancelled

  /** What running the mapping produced: an error, no part at all, or a part. */
  datatype MapOutcome = MapFailed(err: string) | MapNil | Mapped(part: Payload)

  /** The environment of one read; `nextDelay` is the time from that read to the next cron firing. */
  datatype ReadEnv = ReadEnv(wait: WaitOutcome, mapped: MapOutcome, nextDelay: Duration)

  /** The response an acknowledgment receives. */
  datatype Response = Response(err: Option<string>)

  /** A read's outcome: a batch and its acknowledgment function, `ErrTypeClosed`, `ErrTimeout`, or the mapping's error. */
  datatype ReadResult =
    | Emitted(batch: seq<Payload>, ack: Response -> Option<string>)
    | Closed
    | TimedOut
    | MappingFailed(err: string)

  datatype Step = Step(state: ReaderState, result: ReadResult)

  /** The acknowledgment attached to every generated batch. */
  function NoopAck(resp: Response): (e: Option<string>)
    ensures e.None?
  {
    None
  }

  /** Whether a read that got past the count check waits on the ticker. */
  predicate Waits(s: ReaderState): (w: bool)
    ensures w ==> s.timer.Some?
    ensures s.firstIsFree ==> !w
  {
    !s.firstIsFree && s.timer.Some?
  }

  /**
   * `ReadWithContext` as a function of the state before the read: take a
   * count slot, wait for a tick unless the read is free, run the mapping and,
   * in cron mode, reset the ticker to the next firing.
   */
  function ReadStep(s: ReaderState, env: ReadEnv): (r: Step)
    requires s.Valid()
    ensures r.state.Valid()
    ensures r.state.schedule == s.schedule
  {
    if s.remaining >= 0 && s.remaining - 1 < 0 then Step(s.(remaining := s.remaining - 1), Closed)
    else
      var s1 := if s.remaining >= 0 then s.(remaining := s.remaining - 1) else s;
      if Waits(s1) && env.wait == ChannelClosed then Step(s1, Closed)
      else if Waits(s1) && env.wait == Cancelled then Step(s1, TimedOut)
      else
        var s2 := s1.(firstIsFree := false);
        match env.mapped
        case MapFailed(e) => Step(s2, MappingFailed(e))
        case MapNil => Step(s2, TimedOut)
        case Mapped(p) =>
          var s3 := if s2.schedule.Some? then s2.(timer := Some(Ticker(env.nextDelay, false))) else s2;
          Step(s3, Emitted([p], NoopAck))
  }

  /** A run of reads: the state after them and their results in order. */
  function Reads(s: ReaderState, envs: seq<ReadEnv>): (r: (ReaderState, seq<ReadResult>))
    requires s.Valid()
    ensures r.0.Valid() && |r.1| == |envs|
    decreases |envs|
  {
    if envs == [] then (s, [])
    else
      var st := ReadStep(s, envs[0]);
      var rest := Reads(st.state, envs[1..]);
      (rest.0, [st.result] + rest.1)
  }

  /**
   * With no limit (-1), `remaining` never changes and a read is closed only
   * because it waited and found the ticker channel closed.
   */
  lemma UnlimitedStep(s: ReaderState, env: ReadEnv)
    requires s.Valid() && s.remaining == -1
    ensures ReadStep(s, env).state.remaining == -1
    ensures ReadStep(s, env).result.Closed? ==> Waits(s) && env.wait == ChannelClosed
  {
  }

  /** Over any run of reads without a limit, `remaining` stays -1 and closure only comes from the ticker channel. */
  lemma {:induction false} UnlimitedReads(s: ReaderState, envs: seq<ReadEnv>)
    requires s.Valid() && s.remaining == -1
    ensures Reads(s, envs).0.remaining == -1
    ensures forall j :: 0 <= j < |envs| && Reads(s, envs).1[j].Closed? ==> envs[j].wait == ChannelClosed
    decreases |envs|
  {
    if envs != [] {
      var st := ReadStep(s, envs[0]);
      UnlimitedStep(s, envs[0]);
      UnlimitedReads(st.state, envs[1..]);
      var r := Reads(s, envs);
      forall j | 0 <= j < |envs| && r.1[j].Closed? ensures envs[j].wait == ChannelClosed {
        if j > 0 {
          assert r.1[j] == Reads(st.state, envs[1..]).1[j - 1];
          assert envs[j] == envs[1..][j - 1];
        }
      }
    }
  }

  /**
   * While slots remain, each read takes one, whatever it returns (a read that
   * times out has still used its slot), and no read is closed by the count.
   */
  lemma {:induction false} CountedReads(s: ReaderState, envs: seq<ReadEnv>)
    requires s.Valid() && s.remaining >= |envs|
    ensures Reads(s, envs).0.remaining == s.remaining - |envs|
    ensures forall j :: 0 <= j < |envs| && Reads(s, envs).1[j].Closed? ==> envs[j].wait == ChannelClosed
    decreases |envs|
  {
    if envs != [] {
      var st := ReadStep(s, envs[0]);
      assert st.state.remaining == s.remaining - 1;
      CountedReads(st.state, envs[1..]);
      var r := Reads(s, envs);
      forall j | 0 <= j < |envs| && r.1[j].Closed? ensures envs[j].wait == ChannelClosed {
        if j > 0 {
          assert r.1[j] == Reads(st.state, envs[1..]).1[j - 1];
          assert envs[j] == envs[1..][j - 1];
        }
      }
    }
  }

  /**
   * With a count of N, the read after N reads is closed and leaves `remaining`
   * at -1, the value that means "no limit": later reads are not limited.
   */
  lemma CountExhausted(s: ReaderState, envs: seq<ReadEnv>, env: ReadEnv)
    requires s.Valid() && s.remaining == |envs| > 0
    ensures ReadStep(Reads(s, envs).0, env).result.Closed?
    ensures ReadStep(Reads(s, envs).0, env).state == Reads(s, envs).0.(remaining := -1)
  {
    CountedReads(s, envs);
  }

  /** The first read that gets past the count check does not wait, whatever the ticker does, and the next one is not free. */
  lemma FirstReadIsFree(s: ReaderState, env: ReadEnv, w: WaitOutcome)
    requires s.Valid() && s.firstIsFree && s.remaining != 0
    ensures ReadStep(s, env) == ReadStep(s, env.(wait := w))
    ensures !ReadStep(s, env).state.firstIsFree
  {
  }

  /**
   * A later read with a ticker waits: a closed channel gives Closed and a
   * cancelled context gives TimedOut, the slot stays taken, and `firstIsFree`
   * and the ticker are not touched.
   */
  lemma InterruptedWait(s: ReaderState, env: ReadEnv)
    requires s.Valid() && !s.firstIsFree && s.timer.Some? && s.remaining != 0
    requires env.wait != Tick
    ensures ReadStep(s, env).result.Closed? <==> env.wait == ChannelClosed
    ensures ReadStep(s, env).result.TimedOut? <==> env.wait == Cancelled
    ensures ReadStep(s, env).state == s.(remaining := if s.remaining > 0 then s.remaining - 1 else s.remaining)
  {
  }

  /**
   * Past the wait: a nil part gives TimedOut, a part gives a one-part batch
   * whose acknowledgment always returns nil; in cron mode the ticker is reset
   * to the delay measured at this read, whatever its previous period.
   */
  lemma Emission(s: ReaderState, env: ReadEnv)
    requires s.Valid() && s.remaining != 0
    requires !Waits(s) || env.wait == Tick
    ensures env.mapped.MapNil? ==> ReadStep(s, env).result.TimedOut?
    ensures env.mapped.MapFailed? ==> ReadStep(s, env).result == MappingFailed(env.mapped.err)
    ensures env.mapped.Mapped? ==> var r := ReadStep(s, env).result;
      r.Emitted? && r.batch == [env.mapped.part] && forall resp :: r.ack(resp) == None
    ensures env.mapped.Mapped? && s.schedule.Some? ==> ReadStep(s, env).state.timer == Some(Ticker(env.nextDelay, false))
    ensures s.schedule.None? ==> ReadStep(s, env).state.timer == s.timer
    ensures !ReadStep(s, env).state.firstIsFree
  {
  }

  // ---------------------------------------------------------------------------
  // The input object

  class Bloblang {
    var remaining: int
    var firstIsFree: bool
    var timer: Option<Ticker>
    const schedule: Option<Schedule>

    function State(): ReaderState
      reads this
    {
      ReaderState(remaining, firstIsFree, timer, schedule)
    }

    /** The input built from a state NewBloblang produced. */
    constructor (s: ReaderState)
      requires s.Valid()
      ensures State() == s
    {
      remaining, firstIsFree, timer, schedule := s.remaining, s.firstIsFree, s.timer, s.schedule;
    }

    /** `ReadWithContext`: one read, changing the fields as ReadStep says. */
    method ReadWithContext(env: ReadEnv) returns (r: ReadResult)
      requires State().Valid()
      modifies this
      ensures State() == ReadStep(old(State()), env).state
      ensures r == ReadStep(old(State()), env).result
    {
      if remaining >= 0 {
        remaining := remaining - 1;
        if remaining < 0 {
          return Closed;
        }
      }
      if !firstIsFree && timer.Some? {
        match env.wait
        case ChannelClosed => return Closed;
        case Cancelled => return TimedOut;
        case Tick =>
      }
      firstIsFree := false;
      match env.mapped
      case MapFailed(e) =>
        return MappingFailed(e);
      case MapNil =>
        return TimedOut;
      case Mapped(p) =>
        if schedule.Some? {
          timer := Some(Ticker(env.nextDelay, false));
        }
        return Emitted([p], NoopAck);
    }

    /** `CloseAsync`: stop the ticker if there is one; nothing else changes. */
    method CloseAsync()
      modifies this
      ensures remaining == old(remaining) && firstIsFree == old(firstIsFree)
      ensures timer == if old(timer).Some? then Some(old(timer).value.(stopped := true)) else None
    {
      if timer.Some? {
        timer := Some(timer.value.(stopped := true));
      }
    }
  }
}
