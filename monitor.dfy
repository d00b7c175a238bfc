/**
 * The response-time monitor (`MonitorMetricas`): two bounded buffers of
 * timings, the requests whose end is still awaited, and two counters.  Clock
 * readings are passed in as integer ticks and timestamps as opaque strings;
 * averages and the report writers, which format floating-point numbers into
 * a file, are not part of this model.
 */
module Monitor {
  import opened Dicts

  /** `maxlen` of both buffers. */
  const Capacity: nat := 1000

  /** `append` on a deque of maximum length `Capacity`: a full buffer drops
      its oldest element first. */
  function Appended<T>(buf: seq<T>, x: T): seq<T>
  {
    if |buf| < Capacity then buf + [x] else buf[|buf| - Capacity + 1..] + [x]
  }

  /** A bounded buffer keeps exactly the newest `Capacity` elements of
      everything appended: the result is the tail of `buf + [x]` of length
      `min(|buf| + 1, Capacity)`. */
  lemma AppendedKeepsNewest<T>(buf: seq<T>, x: T)
    requires |buf| <= Capacity
    ensures var r := Appended(buf, x);
      && |r| == (if |buf| < Capacity then |buf| + 1 else Capacity)
      && r == (buf + [x])[|buf| + 1 - |r|..]
      && r[|r| - 1] == x
  {
    var r := Appended(buf, x);
    if |buf| == Capacity {
      assert r == (buf + [x])[1..];
    } else {
      assert (buf + [x])[0..] == buf + [x];
    }
  }

  /** One record of either buffer: a measured time, its faculty, a label
      (`operacion` in the server buffer, `programa` in the program buffer)
      and the time stamp. */
  datatype Timing = Timing(time: int, faculty: string, detail: string, stamp: string)

  /** A program request whose end is awaited. */
  datatype Started = Started(start: int, faculty: string, program: string, stamp: string)


  // ---------------------------------------------------------------------------
  // Minimum, maximum and count of a list of times
  // ---------------------------------------------------------------------------

  /** `min(ts)`. */
  function Minimum(ts: seq<int>): (m: int)
    requires |ts| > 0
    ensures m in ts && forall i :: 0 <= i < |ts| ==> m <= ts[i]
    decreases |ts|
  {
    if |ts| == 1 then ts[0]
    else
      var rest := Minimum(ts[..|ts| - 1]);
      assert ts[..|ts| - 1] + [ts[|ts| - 1]] == ts;
      if ts[|ts| - 1] < rest then ts[|ts| - 1] else rest
  }

  /** `max(ts)`. */
  function Maximum(ts: seq<int>): (m: int)
    requires |ts| > 0
    ensures m in ts && forall i :: 0 <= i < |ts| ==> ts[i] <= m
    decreases |ts|
  {
    if |ts| == 1 then ts[0]
    else
      var rest := Maximum(ts[..|ts| - 1]);
      assert ts[..|ts| - 1] + [ts[|ts| - 1]] == ts;
      if ts[|ts| - 1] > rest then ts[|ts| - 1] else rest
  }

  /** The integer part of what each `calcular_*` returns. */
  datatype TimeStats = TimeStats(minimum: int, maximum: int, count: nat)

  /** Zeros for no times; otherwise the least and greatest time, each one of
      the times, and how many there are. */
  function StatsOf(ts: seq<int>): (s: TimeStats)
    ensures |ts| == 0 ==> s == TimeStats(0, 0, 0)
    ensures |ts| > 0 ==>
      && s.count == |ts| && s.minimum <= s.maximum
      && s.minimum in ts && s.maximum in ts
      && forall i :: 0 <= i < |ts| ==> s.minimum <= ts[i] <= s.maximum
  {
    if |ts| == 0 then TimeStats(0, 0, 0) else TimeStats(Minimum(ts), Maximum(ts), |ts|)
  }

  function TimesIn(buf: seq<Timing>): (ts: seq<int>)
    ensures |ts| == |buf| && forall i :: 0 <= i < |buf| ==> ts[i] == buf[i].time
  {
    seq(|buf|, i requires 0 <= i < |buf| => buf[i].time)
  }

  // ---------------------------------------------------------------------------
  // Grouping by faculty
  // ---------------------------------------------------------------------------

  /** A faculty's times, from the server buffer and from the program buffer. */
  datatype Times = Times(server: seq<int>, program: seq<int>)

  /** A (faculty, time) pair of one of the buffers. */
  datatype Tagged = Tagged(faculty: string, time: int)

  function Tags(buf: seq<Timing>): (ts: seq<Tagged>)
    ensures |ts| == |buf| && forall i :: 0 <= i < |buf| ==> ts[i] == Tagged(buf[i].faculty, buf[i].time)
  {
    seq(|buf|, i requires 0 <= i < |buf| => Tagged(buf[i].faculty, buf[i].time))
  }

  /** The times of `items` that carry faculty `f`, in order. */
  function TimesOf(items: seq<Tagged>, f: string): seq<int>
    decreases |items|
  {
    if |items| == 0 then []
    else TimesOf(items[..|items| - 1], f) + (if items[|items| - 1].faculty == f then [items[|items| - 1].time] else [])
  }

  /** `xs` added to the server side (`onServer`) or the program side. */
  function Add(t: Times, onServer: bool, xs: seq<int>): Times
  {
    if onServer then t.(server := t.server + xs) else t.(program := t.program + xs)
  }

  /** What the `defaultdict` gives for `f`: its entry, or two empty lists. */
  function Base(d: seq<Entry<string, Times>>, f: string): Times
  {
    match Get(d, f)
    case Some(t) => t
    case None => Times([], [])
  }

  /** One of the two grouping loops: each item's time is appended to its
      faculty's list on one side, the faculty created on first use. */
  function Group(d: seq<Entry<string, Times>>, items: seq<Tagged>, onServer: bool): seq<Entry<string, Times>>
    decreases |items|
  {
    if |items| == 0 then d
    else
      var g := Group(d, items[..|items| - 1], onServer);
      var it := items[|items| - 1];
      Put(g, it.faculty, Add(Base(g, it.faculty), onServer, [it.time]))
  }

  /** After a grouping loop a faculty's entry holds what it held before
      followed by exactly the times the items carry for it, and a faculty
      gains an entry only when some item carries it. */
  lemma {:induction false} GroupGet(d: seq<Entry<string, Times>>, items: seq<Tagged>, onServer: bool, f: string)
    requires DistinctKeys(d)
    ensures DistinctKeys(Group(d, items, onServer))
    ensures Get(Group(d, items, onServer), f) ==
      if TimesOf(items, f) == [] then Get(d, f) else Some(Add(Base(d, f), onServer, TimesOf(items, f)))
    decreases |items|
  {
    if |items| > 0 {
      var pre := items[..|items| - 1];
      var g := Group(d, pre, onServer);
      var it := items[|items| - 1];
      GroupGet(d, pre, onServer, f);
      GroupGet(d, pre, onServer, it.faculty);
      PutSpec(g, it.faculty, Add(Base(g, it.faculty), onServer, [it.time]));
      if it.faculty == f {
        var xs := TimesOf(pre, f);
        assert TimesOf(items, f) == xs + [it.time];
        if xs != [] {
          var b := Base(d, f);
          assert Base(g, f) == Add(b, onServer, xs);
          if onServer {
            assert b.server + xs + [it.time] == b.server + (xs + [it.time]);
          } else {
            assert b.program + xs + [it.time] == b.program + (xs + [it.time]);
          }
          assert Add(Add(b, onServer, xs), onServer, [it.time]) == Add(b, onServer, xs + [it.time]);
        } else {
          assert Base(g, f) == Base(d, f);
          assert TimesOf(items, f) == [it.time];
        }
      } else {
        assert TimesOf(items, f) == TimesOf(pre, f);
      }
    }
  }

  /** The number of times on one side, over all faculties. */
  function Count(d: seq<Entry<string, Times>>, onServer: bool): nat
    decreases |d|
  {
    if |d| == 0 then 0
    else (if onServer then |d[0].val.server| else |d[0].val.program|) + Count(d[1..], onServer)
  }

  function Side(t: Times, onServer: bool): seq<int>
  {
    if onServer then t.server else t.program
  }

  /** Putting a value changes the count by the difference of the two sides
      under that key. */
  lemma {:induction false} CountPut(d: seq<Entry<string, Times>>, k: string, v: Times, onServer: bool)
    ensures Count(Put(d, k, v), onServer) == Count(d, onServer) - |Side(Base(d, k), onServer)| + |Side(v, onServer)|
    decreases |d|
  {
    if |d| == 0 {
      assert Put(d, k, v) == [Entry(k, v)];
      assert Count([Entry(k, v)], onServer) == |Side(v, onServer)| + Count([Entry(k, v)][1..], onServer);
    } else if d[0].key == k {
      assert Put(d, k, v) == [Entry(k, v)] + d[1..];
      assert (Put(d, k, v))[1..] == d[1..];
    } else {
      CountPut(d[1..], k, v, onServer);
      assert IndexOf(d, k) == (if IndexOf(d[1..], k) < 0 then -1 else IndexOf(d[1..], k) + 1);
      assert Put(d, k, v) == [d[0]] + Put(d[1..], k, v);
      assert (Put(d, k, v))[1..] == Put(d[1..], k, v);
      assert Get(d, k) == Get(d[1..], k);
    }
  }

  /** A grouping loop adds one time per item to its own side and none to the
      other. */
  lemma {:induction false} GroupCount(d: seq<Entry<string, Times>>, items: seq<Tagged>, onServer: bool)
    ensures Count(Group(d, items, onServer), onServer) == Count(d, onServer) + |items|
    ensures Count(Group(d, items, onServer), !onServer) == Count(d, !onServer)
    decreases |items|
  {
    if |items| > 0 {
      var pre := items[..|items| - 1];
      var g := Group(d, pre, onServer);
      var it := items[|items| - 1];
      GroupCount(d, pre, onServer);
      var b := Base(g, it.faculty);
      CountPut(g, it.faculty, Add(b, onServer, [it.time]), onServer);
      CountPut(g, it.faculty, Add(b, onServer, [it.time]), !onServer);
    }
  }

  /** What `obtener_metricas_detalladas_por_facultad` gives for one
      faculty: statistics for each side whose list is not empty. */
  datatype FacultyTimes = FacultyTimes(server: Option<TimeStats>, program: Option<TimeStats>)

  function Summarized(t: Times): FacultyTimes
  {
    FacultyTimes(if |t.server| > 0 then Some(StatsOf(t.server)) else None,
                 if |t.program| > 0 then Some(StatsOf(t.program)) else None)
  }

  function Detailed(g: seq<Entry<string, Times>>): (r: seq<Entry<string, FacultyTimes>>)
    ensures |r| == |g| && forall i :: 0 <= i < |g| ==> r[i] == Entry(g[i].key, Summarized(g[i].val))
  {
    seq(|g|, i requires 0 <= i < |g| => Entry(g[i].key, Summarized(g[i].val)))
  }

  /** Summarizing keeps the keys: a faculty has a summary exactly when it
      has times, and the summary is of those times. */
  lemma DetailedGet(g: seq<Entry<string, Times>>, f: string)
    requires DistinctKeys(g)
    ensures DistinctKeys(Detailed(g))
    ensures Get(Detailed(g), f) == if HasKey(g, f) then Some(Summarized(Get(g, f).value)) else None
  {
    var d := Detailed(g);
    assert DistinctKeys(d) by {
      forall i, j | 0 <= i < j < |d| ensures d[i].key != d[j].key {
        assert d[i].key == g[i].key && d[j].key == g[j].key;
      }
    }
    if HasKey(g, f) {
      var i := IndexOf(g, f);
      UniqueIndex(d, i, f);
    } else {
      assert !HasKey(d, f) by {
        forall i | 0 <= i < |d| ensures d[i].key != f {
          assert d[i].key == g[i].key;
        }
      }
    }
  }

  /** The grouping of both buffers, server times first. */
  function Grouping(srv: seq<Timing>, prog: seq<Timing>): seq<Entry<string, Times>>
  {
    Group(Group([], Tags(srv), true), Tags(prog), false)
  }

  /** Both grouping loops together: a faculty's entry holds exactly its
      server times and its program times, and exists only when one of them
      is not empty. */
  lemma TwoGroups(st: seq<Tagged>, pt: seq<Tagged>, f: string)
    ensures DistinctKeys(Group(Group([], st, true), pt, false))
    ensures var s, p := TimesOf(st, f), TimesOf(pt, f);
      Get(Group(Group([], st, true), pt, false), f) == if s == [] && p == [] then None else Some(Times(s, p))
  {
    var s, p := TimesOf(st, f), TimesOf(pt, f);
    var e: seq<Entry<string, Times>> := [];
    var g1 := Group(e, st, true);
    GroupGet(e, st, true, f);
    GroupGet(g1, pt, false, f);
    assert Get(e, f) == None;
    assert Base(e, f) == Times([], []);
    assert [] + s == s && Add(Times([], []), true, s) == Times(s, []);
    assert Get(g1, f) == if s == [] then None else Some(Times(s, []));
    assert Base(g1, f) == Times(s, []);
    assert [] + p == p && Add(Times(s, []), false, p) == Times(s, p);
  }

  /** The per-faculty report: a faculty appears exactly when a record of
      either buffer carries it, and its summary is that of the times the two
      buffers carry for it. */
  lemma ByFaculty(srv: seq<Timing>, prog: seq<Timing>, f: string)
    ensures DistinctKeys(Detailed(Grouping(srv, prog)))
    ensures var s, p := TimesOf(Tags(srv), f), TimesOf(Tags(prog), f);
      Get(Detailed(Grouping(srv, prog)), f) == if s == [] && p == [] then None else Some(Summarized(Times(s, p)))
  {
    TwoGroups(Tags(srv), Tags(prog), f);
    DetailedGet(Grouping(srv, prog), f);
  }

  /** A faculty's summary has server statistics exactly when it has server
      times, and they count those times; likewise for program times. */
  lemma SummarizedCounts(t: Times)
    ensures Summarized(t).server.Some? <==> t.server != []
    ensures Summarized(t).program.Some? <==> t.program != []
    ensures t.server != [] ==> Summarized(t).server.value.count == |t.server|
    ensures t.program != [] ==> Summarized(t).program.value.count == |t.program|
  {
  }

  /** Every record of both buffers is counted exactly once in the grouping:
      the server lists hold as many times as the server buffer and the
      program lists as many as the program buffer. */
  lemma GroupingCounts(srv: seq<Timing>, prog: seq<Timing>)
    ensures Count(Grouping(srv, prog), true) == |srv|
    ensures Count(Grouping(srv, prog), false) == |prog|
  {
    var g1 := Group([], Tags(srv), true);
    GroupCount([], Tags(srv), true);
    GroupCount(g1, Tags(prog), false);
  }

  /** The `mediciones` of one side, summed over the per-faculty report. */
  function Measured(r: seq<Entry<string, FacultyTimes>>, onServer: bool): nat
    decreases |r|
  {
    if |r| == 0 then 0
    else
      var side := if onServer then r[0].val.server else r[0].val.program;
      (if side.Some? then side.value.count else 0) + Measured(r[1..], onServer)
  }

  lemma {:induction false} MeasuredCount(g: seq<Entry<string, Times>>, onServer: bool)
    ensures Measured(Detailed(g), onServer) == Count(g, onServer)
    decreases |g|
  {
    if |g| > 0 {
      assert Detailed(g)[1..] == Detailed(g[1..]);
      MeasuredCount(g[1..], onServer);
    }
  }

  /** The measurements of the per-faculty report add up to the two buffer
      lengths: every record is counted once, under its own faculty. */
  lemma MeasuredAddsUp(srv: seq<Timing>, prog: seq<Timing>)
    ensures Measured(Detailed(Grouping(srv, prog)), true) == |srv|
    ensures Measured(Detailed(Grouping(srv, prog)), false) == |prog|
  {
    GroupingCounts(srv, prog);
    MeasuredCount(Grouping(srv, prog), true);
    MeasuredCount(Grouping(srv, prog), false);
  }

  // ---------------------------------------------------------------------------
  // The monitor object
  // ---------------------------------------------------------------------------

  /** The counters behind `estadisticas_generales`. */
  datatype General = General(processed: int, responses: int, inProgress: nat)

  class MetricsMonitor {
    /** `tiempos_servidor_facultad`. */
    var serverTimes: seq<Timing>
    /** `tiempos_programa_atencion`. */
    var programTimes: seq<Timing>
    /** `solicitudes_en_progreso`, by request id. */
    var inProgress: seq<Entry<string, Started>>
    /** `total_solicitudes_procesadas`. */
    var processed: int
    /** `total_respuestas_enviadas`. */
    var responses: int

    /** The buffers are within their bound and the ids are distinct. */
    predicate Valid()
      reads this
    {
      |serverTimes| <= Capacity && |programTimes| <= Capacity && DistinctKeys(inProgress)
    }

    constructor ()
      ensures serverTimes == [] && programTimes == [] && inProgress == [] && processed == 0 && responses == 0
      ensures Valid()
    {
      serverTimes, programTimes, inProgress := [], [], [];
      processed, responses := 0, 0;
    }

    /** `registrar_inicio_solicitud_programa`: the id's start is recorded,
        replacing an earlier start under the same id. */
    method StartRequest(id: string, faculty: string, program: string, now: int, stamp: string)
      modifies this
      requires Valid()
      ensures inProgress == Put(old(inProgress), id, Started(now, faculty, program, stamp))
      ensures Get(inProgress, id) == Some(Started(now, faculty, program, stamp))
      ensures forall other :: other != id ==> Get(inProgress, other) == Get(old(inProgress), other)
      ensures serverTimes == old(serverTimes) && programTimes == old(programTimes)
      ensures processed == old(processed) && responses == old(responses)
      ensures Valid()
    {
      PutSpec(inProgress, id, Started(now, faculty, program, stamp));
      inProgress := Put(inProgress, id, Started(now, faculty, program, stamp));
    }

    /** `registrar_fin_solicitud_programa`: a known id is removed, its
        duration recorded and counted and returned; an unknown id changes
        nothing and gives `None`. */
    method FinishRequest(id: string, now: int, stamp: string) returns (elapsed: Option<int>)
      modifies this
      requires Valid()
      ensures Valid()
      ensures !HasKey(old(inProgress), id) ==>
        elapsed == None && inProgress == old(inProgress) && programTimes == old(programTimes) && processed == old(processed)
      ensures HasKey(old(inProgress), id) ==>
        var s := Get(old(inProgress), id).value;
        && elapsed == Some(now - s.start)
        && inProgress == Remove(old(inProgress), id)
        && programTimes == Appended(old(programTimes), Timing(now - s.start, s.faculty, s.program, stamp))
        && processed == old(processed) + 1
      ensures serverTimes == old(serverTimes) && responses == old(responses)
    {
      if !HasKey(inProgress, id) {
        return None;
      }
      var s := Get(inProgress, id).value;
      assert DistinctKeys(Remove(inProgress, id)) by { RemoveSpec(inProgress, id); }
      inProgress := Remove(inProgress, id);
      var total := now - s.start;
      AppendedKeepsNewest(programTimes, Timing(total, s.faculty, s.program, stamp));
      programTimes := Appended(programTimes, Timing(total, s.faculty, s.program, stamp));
      processed := processed + 1;
      elapsed := Some(total);
    }

    /** `registrar_tiempo_respuesta_servidor`: one record appended to the
        bounded buffer and one response counted; the counter keeps growing
        once the buffer is full. */
    method RecordServerTime(time: int, faculty: string, operation: string, stamp: string)
      modifies this
      requires Valid()
      ensures serverTimes == Appended(old(serverTimes), Timing(time, faculty, operation, stamp))
      ensures responses == old(responses) + 1
      ensures programTimes == old(programTimes) && inProgress == old(inProgress) && processed == old(processed)
      ensures Valid()
    {
      AppendedKeepsNewest(serverTimes, Timing(time, faculty, operation, stamp));
      serverTimes := Appended(serverTimes, Timing(time, faculty, operation, stamp));
      responses := responses + 1;
    }

    /** `calcular_metricas_servidor_facultad` without the average. */
    function ServerMetrics(): (s: TimeStats)
      reads this
      ensures s.count == |serverTimes|
      ensures |serverTimes| > 0 ==> s.minimum <= s.maximum
    {
      StatsOf(TimesIn(serverTimes))
    }

    /** `calcular_metricas_programa_atencion` without the average. */
    function ProgramMetrics(): (s: TimeStats)
      reads this
      ensures s.count == |programTimes|
      ensures |programTimes| > 0 ==> s.minimum <= s.maximum
    {
      StatsOf(TimesIn(programTimes))
    }

    /** The counts of `estadisticas_generales`. */
    function GeneralStats(): (g: General)
      reads this
      ensures g.inProgress == |inProgress|
    {
      General(processed, responses, |inProgress|)
    }

    /** `obtener_metricas_detalladas_por_facultad` without the averages. */
    function DetailedByFaculty(): seq<Entry<string, FacultyTimes>>
      reads this
    {
      Detailed(Grouping(serverTimes, programTimes))
    }
  }
}
