/** The adapter's poll-and-publish cycle over the host's store.

    The host keeps two tables: object definitions (metadata, one per data
    point) and states (a value with an "acknowledged" flag).  `create_indicator`
    sets a data point's state and defines its object when none exists.  After a
    login request completes, the adapter polls the metrics endpoint once
    straight away and arms one recurring timer that polls again at every tick.
    A poll whose request fails, or whose payload has a falsy total consumption,
    publishes nothing.  A body that does not parse, or a payload without a
    timestamp, makes the callback throw, which ends the process and its timer.
    Otherwise six fixed data points are published.

    The value-level functions (`Indicate`, `AfterPoll`, `LoginStep`, `Run`) say
    what each step does; the class `Adapter` performs the steps in place and is
    proved to agree with them. */
module Poller {

  import opened Options

  /** A parsed JSON value, plus `Undefined` for a property that is absent. */
  datatype Value = Undefined | Null | Bool(b: bool) | Number(n: real) | Text(s: string) | Composite

  /** JavaScript truthiness; a number parsed from JSON is never NaN. */
  predicate Truthy(v: Value)
  {
    match v
    case Undefined => false
    case Null => false
    case Bool(b) => b
    case Number(n) => n != 0.0
    case Text(s) => s != ""
    case Composite => true
  }

  /** The payload's `Timestamp`, when it is present and not null; its
      `DateTime` is `Undefined` when absent. */
  datatype Timestamp = Timestamp(dateTime: Value)

  /** The fields of the metrics payload that the adapter reads.  A `timestamp`
      of None stands for a `Timestamp` that is absent or null, whose
      `DateTime` cannot be read. */
  datatype Payload = Payload(
    totalConsumption: Value,
    gridConsumption: Value,
    selfConsumption: Value,
    selfConsumptionQuote: Value,
    autarkyQuote: Value,
    timestamp: Option<Timestamp>)

  /** How a metrics request ends: a transport error, a body that does not
      parse to an object, or a parsed payload. */
  datatype Response = TransportError | Malformed | Parsed(payload: Payload)

  /** How the login request ends; its status and body are not inspected. */
  datatype LoginReply = LoginTransportError | LoginCompleted

  /** An object definition: its type and the `common` part of its metadata.
      The definition's `native` part is always the empty object, so it is not
      a field. */
  datatype Meta = Meta(kind: string, name: string, role: string, valueType: string, read: bool, write: bool)

  /** The definition `create_indicator` writes for a new data point. */
  function IndicatorMeta(description: string): Meta
  {
    Meta("state", description, "state", "boolean", true, false)
  }

  datatype State = State(val: Value, ack: bool)

  datatype Store = Store(objects: map<string, Meta>, states: map<string, State>)

  /** One `create_indicator(id, description, value)` call. */
  datatype Reading = Reading(id: string, description: string, value: Value)

  // ---------------------------------------------------------------------------
  // create_indicator

  /** The net effect of `create_indicator`: the state is set and acknowledged;
      the object is defined only when it did not exist. */
  function Indicate(st: Store, r: Reading): Store
  {
    Store(
      if r.id in st.objects then st.objects else st.objects[r.id := IndicatorMeta(r.description)],
      st.states[r.id := State(r.value, true)])
  }

  /** What `create_indicator` changes, and what it leaves alone. */
  lemma IndicateEffect(st: Store, r: Reading)
    ensures r.id in Indicate(st, r).states && Indicate(st, r).states[r.id] == State(r.value, true)
    ensures r.id in Indicate(st, r).objects
    ensures r.id in st.objects ==> Indicate(st, r).objects[r.id] == st.objects[r.id]
    ensures r.id !in st.objects ==> Indicate(st, r).objects[r.id] == IndicatorMeta(r.description)
    ensures forall k :: k != r.id ==> (k in Indicate(st, r).states <==> k in st.states)
    ensures forall k :: k != r.id && k in st.states ==> Indicate(st, r).states[k] == st.states[k]
    ensures forall k :: k != r.id ==> (k in Indicate(st, r).objects <==> k in st.objects)
    ensures forall k :: k != r.id && k in st.objects ==> Indicate(st, r).objects[k] == st.objects[k]
  {
  }

  /** Calling `create_indicator` twice with the same arguments is calling it
      once. */
  lemma IndicateIdempotent(st: Store, r: Reading)
    ensures Indicate(Indicate(st, r), r) == Indicate(st, r)
  {
  }

  /** A sequence of `create_indicator` calls, in order. */
  function IndicateAll(st: Store, rs: seq<Reading>): Store
    decreases |rs|
  {
    if rs == [] then st else Indicate(IndicateAll(st, rs[..|rs| - 1]), rs[|rs| - 1])
  }

  predicate DistinctIds(rs: seq<Reading>)
  {
    forall i, j :: 0 <= i < j < |rs| ==> rs[i].id != rs[j].id
  }

  predicate IsId(rs: seq<Reading>, k: string)
  {
    exists i :: 0 <= i < |rs| && rs[i].id == k
  }

  lemma IndicateAllSnoc(st: Store, rs: seq<Reading>, k: nat)
    requires k < |rs|
    ensures IndicateAll(st, rs[..k + 1]) == Indicate(IndicateAll(st, rs[..k]), rs[k])
  {
    assert rs[..k + 1][..k] == rs[..k];
  }

  /** A data point that none of the calls names is left as it was. */
  lemma {:induction false} IndicateAllElsewhere(st: Store, rs: seq<Reading>, k: string)
    requires !IsId(rs, k)
    ensures k in IndicateAll(st, rs).states <==> k in st.states
    ensures k in st.states ==> IndicateAll(st, rs).states[k] == st.states[k]
    ensures k in IndicateAll(st, rs).objects <==> k in st.objects
    ensures k in st.objects ==> IndicateAll(st, rs).objects[k] == st.objects[k]
    decreases |rs|
  {
    if rs != [] {
      var n := |rs| - 1;
      var pre := rs[..n];
      assert !IsId(pre, k) by {
        forall i | 0 <= i < |pre| ensures pre[i].id != k { assert pre[i] == rs[i]; }
      }
      assert rs[n].id != k;
      IndicateAllElsewhere(st, pre, k);
    }
  }

  /** Six calls in a row. */
  lemma IndicateAllSix(st: Store, rs: seq<Reading>)
    requires |rs| == 6
    ensures IndicateAll(st, rs)
         == Indicate(Indicate(Indicate(Indicate(Indicate(Indicate(st, rs[0]), rs[1]), rs[2]), rs[3]), rs[4]), rs[5])
  {
    var s0 := st;
    assert rs[..0] == [];
    IndicateAllSnoc(st, rs, 0);
    var s1 := Indicate(s0, rs[0]);
    assert IndicateAll(st, rs[..1]) == s1;
    IndicateAllSnoc(st, rs, 1);
    var s2 := Indicate(s1, rs[1]);
    assert IndicateAll(st, rs[..2]) == s2;
    IndicateAllSnoc(st, rs, 2);
    var s3 := Indicate(s2, rs[2]);
    assert IndicateAll(st, rs[..3]) == s3;
    IndicateAllSnoc(st, rs, 3);
    var s4 := Indicate(s3, rs[3]);
    assert IndicateAll(st, rs[..4]) == s4;
    IndicateAllSnoc(st, rs, 4);
    var s5 := Indicate(s4, rs[4]);
    assert IndicateAll(st, rs[..5]) == s5;
    IndicateAllSnoc(st, rs, 5);
    assert IndicateAll(st, rs[..6]) == Indicate(s5, rs[5]);
    assert rs[..6] == rs;
  }

  /** With distinct names, the data point named by call `i` holds that call's
      value, acknowledged, and its object is the one that existed before or
      else the new definition. */
  lemma {:induction false} IndicateAllAt(st: Store, rs: seq<Reading>, i: nat)
    requires DistinctIds(rs) && i < |rs|
    ensures rs[i].id in IndicateAll(st, rs).states
    ensures IndicateAll(st, rs).states[rs[i].id] == State(rs[i].value, true)
    ensures rs[i].id in IndicateAll(st, rs).objects
    ensures IndicateAll(st, rs).objects[rs[i].id]
         == if rs[i].id in st.objects then st.objects[rs[i].id] else IndicatorMeta(rs[i].description)
    decreases |rs|
  {
    var n := |rs| - 1;
    var pre := rs[..n];
    assert DistinctIds(pre) by {
      forall a, b | 0 <= a < b < |pre| ensures pre[a].id != pre[b].id { assert pre[a] == rs[a] && pre[b] == rs[b]; }
    }
    if i == n {
      assert !IsId(pre, rs[i].id) by {
        forall j | 0 <= j < |pre| ensures pre[j].id != rs[i].id { assert pre[j] == rs[j]; }
      }
      IndicateAllElsewhere(st, pre, rs[i].id);
    } else {
      assert pre[i] == rs[i];
      IndicateAllAt(st, pre, i);
      assert rs[n].id != rs[i].id;
    }
  }

  // ---------------------------------------------------------------------------
  // homemanager: handling the metrics response

  /** The names of the six data points a successful poll publishes, in order. */
  const PublishedIds: seq<string> :=
    ["total_consumption", "grid_consumption", "self_consumption",
     "self_consumption_quote", "autarky_quote", "last_update"]

  /** Their descriptions, in the same order. */
  const PublishedDescriptions: seq<string> :=
    ["total consumption", "grid consumption", "self consumption",
     "self consumption quote", "autarky quote", "time of last update"]

  /** The six `create_indicator` calls of a successful poll, in order. */
  function Readings(p: Payload, dateTime: Value): seq<Reading>
  {
    [Reading(PublishedIds[0], PublishedDescriptions[0], p.totalConsumption),
     Reading(PublishedIds[1], PublishedDescriptions[1], p.gridConsumption),
     Reading(PublishedIds[2], PublishedDescriptions[2], p.selfConsumption),
     Reading(PublishedIds[3], PublishedDescriptions[3], p.selfConsumptionQuote),
     Reading(PublishedIds[4], PublishedDescriptions[4], p.autarkyQuote),
     Reading(PublishedIds[5], PublishedDescriptions[5], dateTime)]
  }

  /** How one poll ends.  `ParseFailed` and `TimestampMissing` are exceptions
      thrown out of the response callback, before anything is published. */
  datatype PollOutcome =
    | TransportFailed
    | ParseFailed
    | NoData
    | TimestampMissing
    | Published(readings: seq<Reading>)

  function Outcome(resp: Response): PollOutcome
  {
    match resp
    case TransportError => TransportFailed
    case Malformed => ParseFailed
    case Parsed(p) =>
      if !Truthy(p.totalConsumption) then NoData
      else if p.timestamp.None? then TimestampMissing
      else Published(Readings(p, p.timestamp.value.dateTime))
  }

  /** The store after one poll's response has been handled. */
  function AfterPoll(st: Store, resp: Response): Store
  {
    match Outcome(resp)
    case Published(rs) => IndicateAll(st, rs)
    case _ => st
  }

  /** Data point `k` holds `v`, acknowledged. */
  predicate HoldsAcknowledged(st: Store, k: string, v: Value)
  {
    k in st.states && st.states[k] == State(v, true)
  }

  /** A poll publishes exactly when its payload parsed, has a truthy total
      consumption and a readable timestamp; then it publishes the six data
      points in order.  Every other poll leaves the store as it was. */
  lemma PollOutcomes(st: Store, resp: Response)
    ensures Outcome(resp).Published?
        <==> resp.Parsed? && Truthy(resp.payload.totalConsumption) && resp.payload.timestamp.Some?
    ensures Outcome(resp).Published? ==>
      |Outcome(resp).readings| == |PublishedIds| &&
      forall i :: 0 <= i < |PublishedIds| ==> Outcome(resp).readings[i].id == PublishedIds[i]
    ensures !Outcome(resp).Published? ==> AfterPoll(st, resp) == st
  {
  }

  lemma ReadingsDistinct(p: Payload, dateTime: Value)
    ensures DistinctIds(Readings(p, dateTime))
    ensures forall k :: IsId(Readings(p, dateTime), k) <==> k in PublishedIds
  {
    var rs := Readings(p, dateTime);
    forall k ensures IsId(rs, k) <==> k in PublishedIds {
      if k in PublishedIds {
        var i :| 0 <= i < |PublishedIds| && PublishedIds[i] == k;
        assert rs[i].id == k;
      }
    }
  }

  /** A successful poll sets the six data points to the payload's fields, with
      `last_update` holding `Timestamp.DateTime`, all acknowledged; it defines
      only the objects that were missing; every other data point is
      untouched. */
  lemma PollPublishes(st: Store, p: Payload)
    requires Truthy(p.totalConsumption) && p.timestamp.Some?
    ensures HoldsAcknowledged(AfterPoll(st, Parsed(p)), "total_consumption", p.totalConsumption)
    ensures HoldsAcknowledged(AfterPoll(st, Parsed(p)), "grid_consumption", p.gridConsumption)
    ensures HoldsAcknowledged(AfterPoll(st, Parsed(p)), "self_consumption", p.selfConsumption)
    ensures HoldsAcknowledged(AfterPoll(st, Parsed(p)), "self_consumption_quote", p.selfConsumptionQuote)
    ensures HoldsAcknowledged(AfterPoll(st, Parsed(p)), "autarky_quote", p.autarkyQuote)
    ensures HoldsAcknowledged(AfterPoll(st, Parsed(p)), "last_update", p.timestamp.value.dateTime)
    ensures forall k :: k in PublishedIds ==> k in AfterPoll(st, Parsed(p)).objects
    ensures forall k :: k in PublishedIds && k in st.objects ==> AfterPoll(st, Parsed(p)).objects[k] == st.objects[k]
    ensures forall i :: 0 <= i < |PublishedIds| && PublishedIds[i] !in st.objects ==>
      AfterPoll(st, Parsed(p)).objects[PublishedIds[i]] == IndicatorMeta(PublishedDescriptions[i])
    ensures forall k :: k !in PublishedIds ==> (k in AfterPoll(st, Parsed(p)).states <==> k in st.states)
    ensures forall k :: k !in PublishedIds && k in st.states ==> AfterPoll(st, Parsed(p)).states[k] == st.states[k]
    ensures forall k :: k !in PublishedIds ==> (k in AfterPoll(st, Parsed(p)).objects <==> k in st.objects)
    ensures forall k :: k !in PublishedIds && k in st.objects ==> AfterPoll(st, Parsed(p)).objects[k] == st.objects[k]
  {
    var rs := Readings(p, p.timestamp.value.dateTime);
    ReadingsDistinct(p, p.timestamp.value.dateTime);
    IndicateAllAt(st, rs, 0);
    IndicateAllAt(st, rs, 1);
    IndicateAllAt(st, rs, 2);
    IndicateAllAt(st, rs, 3);
    IndicateAllAt(st, rs, 4);
    IndicateAllAt(st, rs, 5);
    forall k | k in PublishedIds ensures k in AfterPoll(st, Parsed(p)).objects {
      var i :| 0 <= i < |rs| && rs[i].id == k;
      IndicateAllAt(st, rs, i);
    }
    forall k | k in PublishedIds && k in st.objects ensures AfterPoll(st, Parsed(p)).objects[k] == st.objects[k] {
      var i :| 0 <= i < |rs| && rs[i].id == k;
      IndicateAllAt(st, rs, i);
    }
    forall i | 0 <= i < |PublishedIds| && PublishedIds[i] !in st.objects
      ensures AfterPoll(st, Parsed(p)).objects[PublishedIds[i]] == IndicatorMeta(PublishedDescriptions[i])
    {
      IndicateAllAt(st, rs, i);
    }
    forall k | k !in PublishedIds
      ensures (k in AfterPoll(st, Parsed(p)).states <==> k in st.states)
      ensures k in st.states ==> AfterPoll(st, Parsed(p)).states[k] == st.states[k]
      ensures (k in AfterPoll(st, Parsed(p)).objects <==> k in st.objects)
      ensures k in st.objects ==> AfterPoll(st, Parsed(p)).objects[k] == st.objects[k]
    {
      IndicateAllElsewhere(st, rs, k);
    }
  }

  /** Handling the same response twice leaves the store as handling it once. */
  lemma PollIdempotent(st: Store, resp: Response)
    ensures AfterPoll(AfterPoll(st, resp), resp) == AfterPoll(st, resp)
  {
    if Outcome(resp).Published? {
      var rs := Outcome(resp).readings;
      var p := resp.payload;
      ReadingsDistinct(p, p.timestamp.value.dateTime);
      var once := IndicateAll(st, rs);
      var twice := IndicateAll(once, rs);
      forall k | k in twice.states || k in once.states ensures k in twice.states && k in once.states && twice.states[k] == once.states[k] {
        if IsId(rs, k) {
          var i :| 0 <= i < |rs| && rs[i].id == k;
          IndicateAllAt(st, rs, i);
          IndicateAllAt(once, rs, i);
        } else {
          IndicateAllElsewhere(once, rs, k);
        }
      }
      forall k | k in twice.objects || k in once.objects ensures k in twice.objects && k in once.objects && twice.objects[k] == once.objects[k] {
        if IsId(rs, k) {
          var i :| 0 <= i < |rs| && rs[i].id == k;
          IndicateAllAt(st, rs, i);
          IndicateAllAt(once, rs, i);
        } else {
          IndicateAllElsewhere(once, rs, k);
        }
      }
      assert twice.states == once.states;
      assert twice.objects == once.objects;
    }
  }

  // ---------------------------------------------------------------------------
  // login and the recurring timer

  /** The delay given to `setInterval`: the configured interval in
      milliseconds, but never less than fifteen seconds. */
  function PollPeriod(interval: int): (ms: int)
    ensures ms >= 15000
    ensures interval >= 15 ==> ms == interval * 1000
    ensures interval < 15 ==> ms == 15000
  {
    if interval >= 15 then interval * 1000 else 15 * 1000
  }

  /** The store, the delays of the recurring timers armed so far, the number
      of metrics requests issued, and whether the process has ended.  An
      exception thrown in a response callback is uncaught: it ends the
      process, and every timer with it. */
  datatype Process = Process(store: Store, timers: seq<int>, polls: nat, halted: bool)

  /** The outcomes whose callback throws: `JSON.parse` on a body that does not
      parse, and reading `Timestamp.DateTime` when `Timestamp` is missing. */
  predicate Throws(resp: Response)
  {
    Outcome(resp).ParseFailed? || Outcome(resp).TimestampMissing?
  }

  predicate AnyThrows(responses: seq<Response>)
  {
    exists i :: 0 <= i < |responses| && Throws(responses[i])
  }

  /** How many of the given responses are handled before the process ends:
      all of them up to and including the first that throws, or all of them
      when none throws. */
  function TicksUntilHalt(responses: seq<Response>): (n: nat)
    ensures n <= |responses|
    ensures forall i :: 0 <= i < n - 1 ==> !Throws(responses[i])
    ensures AnyThrows(responses) <==> (n > 0 && Throws(responses[n - 1]))
    ensures !AnyThrows(responses) ==> n == |responses|
    decreases |responses|
  {
    if responses == [] then 0
    else if Throws(responses[0]) then 1
    else
      var m := TicksUntilHalt(responses[1..]);
      assert forall i :: 1 <= i < |responses| ==> responses[1..][i - 1] == responses[i];
      assert AnyThrows(responses) ==> AnyThrows(responses[1..]) by {
        if AnyThrows(responses) {
          var i :| 0 <= i < |responses| && Throws(responses[i]);
          assert i != 0;
          assert Throws(responses[1..][i - 1]);
        }
      }
      1 + m
  }

  /** One call of `homemanager`: a request is issued and its response handled;
      a response whose callback throws ends the process. */
  function PollStep(pr: Process, resp: Response): Process
  {
    Process(AfterPoll(pr.store, resp), pr.timers, pr.polls + 1, pr.halted || Throws(resp))
  }

  /** The login callback: nothing on a transport error; otherwise one
      immediate poll and one recurring timer.  The timer is armed before the
      first response arrives, so it is armed even when that response throws. */
  function LoginStep(pr: Process, reply: LoginReply, interval: int, first: Response): Process
  {
    match reply
    case LoginTransportError => pr
    case LoginCompleted =>
      var polled := PollStep(pr, first);
      polled.(timers := polled.timers + [PollPeriod(interval)])
  }

  /** Timer ticks, one poll per response, for as long as a timer is armed and
      the process is running. */
  function Run(pr: Process, responses: seq<Response>): Process
    decreases |responses|
  {
    if responses == [] || pr.timers == [] || pr.halted then pr
    else Run(PollStep(pr, responses[0]), responses[1..])
  }

  /** While the process runs, each tick issues one request, up to and
      including the first response that throws; the process has then ended,
      and the responses after that one change nothing.  Ticks leave the list
      of timers as it was. */
  lemma {:induction false} RunUntilHalt(pr: Process, responses: seq<Response>)
    ensures Run(pr, responses).timers == pr.timers
    ensures Run(pr, responses).polls ==
      pr.polls + (if pr.timers == [] || pr.halted then 0 else TicksUntilHalt(responses))
    ensures Run(pr, responses).halted == (pr.halted || (pr.timers != [] && AnyThrows(responses)))
    ensures Run(pr, responses) == Run(pr, responses[..TicksUntilHalt(responses)])
    decreases |responses|
  {
    var n := TicksUntilHalt(responses);
    if responses != [] && pr.timers != [] && !pr.halted {
      var next := PollStep(pr, responses[0]);
      RunUntilHalt(next, responses[1..]);
      assert responses[..n][0] == responses[0];
      if Throws(responses[0]) {
        assert responses[..n][1..] == [];
        assert AnyThrows(responses);
      } else {
        assert responses[..n][1..] == responses[1..][..TicksUntilHalt(responses[1..])];
        assert AnyThrows(responses) <==> AnyThrows(responses[1..]) by {
          if AnyThrows(responses) {
            var i :| 0 <= i < |responses| && Throws(responses[i]);
            assert Throws(responses[1..][i - 1]);
          }
          if AnyThrows(responses[1..]) {
            var i :| 0 <= i < |responses[1..]| && Throws(responses[1..][i]);
            assert Throws(responses[i + 1]);
          }
        }
      }
    } else if responses != [] && n > 0 {
      assert responses[..n] != [];
    }
  }

  /** From startup, with no timer armed, no request issued and the process
      running: a failed login leaves everything as it was for good; a
      completed login arms exactly one timer, whose delay is at least fifteen
      seconds, and issues one request straight away and then one per tick
      until a response throws and ends the process. */
  lemma {:induction false} LoginArmsOneTimer(
    st: Store, interval: int, reply: LoginReply, first: Response, responses: seq<Response>)
    ensures |Run(LoginStep(Process(st, [], 0, false), reply, interval, first), responses).timers| <= 1
    ensures reply.LoginTransportError? ==>
      Run(LoginStep(Process(st, [], 0, false), reply, interval, first), responses) == Process(st, [], 0, false)
    ensures reply.LoginCompleted? ==>
      Run(LoginStep(Process(st, [], 0, false), reply, interval, first), responses).timers == [PollPeriod(interval)] &&
      Run(LoginStep(Process(st, [], 0, false), reply, interval, first), responses).polls ==
        1 + (if Throws(first) then 0 else TicksUntilHalt(responses)) &&
      Run(LoginStep(Process(st, [], 0, false), reply, interval, first), responses).halted ==
        (Throws(first) || AnyThrows(responses))
    ensures forall i :: 0 <= i < |Run(LoginStep(Process(st, [], 0, false), reply, interval, first), responses).timers| ==>
      Run(LoginStep(Process(st, [], 0, false), reply, interval, first), responses).timers[i] >= 15000
  {
    var pr := LoginStep(Process(st, [], 0, false), reply, interval, first);
    RunUntilHalt(pr, responses);
    if reply.LoginTransportError? {
      assert responses == [] || pr.timers == [];
    }
  }

  /** The end-to-end scenario of a first poll: the payload's timestamp becomes
      `last_update`, the total is published, and one timer of the configured
      thirty seconds is armed. */
  lemma FirstPollScenario()
    ensures var p := Payload(Number(100.0), Number(40.0), Number(60.0), Number(0.6), Number(0.6),
                             Some(Timestamp(Text("2024-01-01T00:00:00"))));
            var pr := LoginStep(Process(Store(map[], map[]), [], 0, false), LoginCompleted, 30, Parsed(p));
            HoldsAcknowledged(pr.store, "last_update", Text("2024-01-01T00:00:00")) &&
            HoldsAcknowledged(pr.store, "total_consumption", Number(100.0)) &&
            "last_update" in pr.store.objects &&
            pr.store.objects["last_update"] == IndicatorMeta("time of last update") &&
            pr.timers == [30000] && pr.polls == 1 && !pr.halted
  {
    var p := Payload(Number(100.0), Number(40.0), Number(60.0), Number(0.6), Number(0.6),
                     Some(Timestamp(Text("2024-01-01T00:00:00"))));
    PollPublishes(Store(map[], map[]), p);
    assert PublishedIds[5] == "last_update";
  }

  // ---------------------------------------------------------------------------
  // The adapter instance, updating the store in place

  class Adapter {
    /** The configured `interval`, in seconds. */
    const interval: int
    var objects: map<string, Meta>
    var states: map<string, State>
    /** The delay of every recurring timer armed so far, in milliseconds. */
    var timers: seq<int>
    /** The number of metrics requests issued so far. */
    var polls: nat
    /** Whether an uncaught exception has ended the process. */
    var halted: bool

    function Contents(): Store
      reads this
    {
      Store(objects, states)
    }

    function Snapshot(): Process
      reads this
    {
      Process(Contents(), timers, polls, halted)
    }

    /** An adapter at startup, over whatever the store already holds. */
    constructor (interval: int, objects: map<string, Meta>, states: map<string, State>)
      ensures this.interval == interval
      ensures Snapshot() == Process(Store(objects, states), [], 0, false)
    {
      this.interval := interval;
      this.objects := objects;
      this.states := states;
      timers := [];
      polls := 0;
      halted := false;
    }

    /** `create_indicator(name, description, value)`.  The unconditional
        `setState` runs first; the object lookup's callback then defines the
        object and sets the same state again when the object was missing. */
    method CreateIndicator(name: string, description: string, value: Value)
      modifies this
      ensures Contents() == Indicate(old(Contents()), Reading(name, description, value))
      ensures timers == old(timers) && polls == old(polls) && halted == old(halted)
    {
      states := states[name := State(value, true)];
      if name !in objects {
        objects := objects[name := IndicatorMeta(description)];
        states := states[name := State(value, true)];
      }
    }

    /** `homemanager()`: issue one metrics request and handle its response. */
    method Homemanager(response: Response) returns (outcome: PollOutcome)
      requires !halted
      modifies this
      ensures outcome == Outcome(response)
      ensures Snapshot() == PollStep(old(Snapshot()), response)
    {
      polls := polls + 1;
      match response
      case TransportError =>
        outcome := TransportFailed;
      case Malformed =>
        outcome := ParseFailed;
        halted := true;
      case Parsed(p) =>
        if !Truthy(p.totalConsumption) {
          outcome := NoData;
        } else if p.timestamp.None? {
          outcome := TimestampMissing;
          halted := true;
        } else {
          var dateTime := p.timestamp.value.dateTime;
          ghost var st := Contents();
          ghost var rs := Readings(p, dateTime);
          CreateIndicator("total_consumption", "total consumption", p.totalConsumption);
          CreateIndicator("grid_consumption", "grid consumption", p.gridConsumption);
          CreateIndicator("self_consumption", "self consumption", p.selfConsumption);
          CreateIndicator("self_consumption_quote", "self consumption quote", p.selfConsumptionQuote);
          CreateIndicator("autarky_quote", "autarky quote", p.autarkyQuote);
          CreateIndicator("last_update", "time of last update", dateTime);
          assert Contents()
              == Indicate(Indicate(Indicate(Indicate(Indicate(Indicate(st, rs[0]), rs[1]), rs[2]), rs[3]), rs[4]), rs[5]);
          IndicateAllSix(st, rs);
          outcome := Published(Readings(p, dateTime));
        }
    }

    /** The login request's callback. */
    method Login(reply: LoginReply, first: Response)
      requires timers == [] && polls == 0 && !halted
      modifies this
      ensures Snapshot() == LoginStep(old(Snapshot()), reply, interval, first)
    {
      match reply
      case LoginTransportError =>
        return;
      case LoginCompleted =>
        var outcome := Homemanager(first);
        timers := timers + [PollPeriod(interval)];
    }

    /** A tick of an armed recurring timer, which calls `homemanager`; no
        tick happens once the process has ended. */
    method Tick(response: Response) returns (outcome: PollOutcome)
      requires timers != [] && !halted
      modifies this
      ensures outcome == Outcome(response)
      ensures Snapshot() == PollStep(old(Snapshot()), response)
    {
      outcome := Homemanager(response);
    }
  }
}
