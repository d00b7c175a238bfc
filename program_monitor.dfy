/**
 * The per-program monitor (`MonitorMetricasPrograma`): four counters per
 * academic program, kept under the key `facultad|programa` in a
 * `defaultdict` whose insertion order the report follows.  Timestamps are
 * opaque strings; percentages and the report text, which format
 * floating-point numbers, are not part of this model.
 */
module ProgramMonitor {
  import opened Dicts
  import opened PyText

  /** `_generar_clave_programa`. */
  function Key(faculty: string, program: string): (k: string)
    ensures '|' in k
  {
    assert (faculty + "|" + program)[|faculty|] == '|';
    faculty + "|" + program
  }

  /** Splitting a key on its first `|` gives back the faculty and the
      program whenever the faculty itself has no `|`. */
  lemma KeySplits(faculty: string, program: string)
    requires '|' !in faculty
    ensures SplitFirst(Key(faculty, program), '|') == Some((faculty, program))
  {
    var k := Key(faculty, program);
    assert k[..|faculty|] == faculty && k[|faculty| + 1..] == program;
    SplitFirstAt(k, '|', |faculty|);
  }

  /** The stored record of one program. */
  datatype Counts = Counts(
    served: nat,            // atendidos_satisfactoriamente
    rejectedByFaculty: nat, // rechazados_por_facultad
    rejectedByServer: nat,  // rechazados_por_servidor
    commErrors: nat,        // errores_comunicacion
    faculty: string,
    lastStamp: string)

  /** The value the `defaultdict` creates for a key never seen. */
  const Zero := Counts(0, 0, 0, 0, "", "")

  /** Which of the four `registrar_*` methods was called. */
  datatype Outcome = Served | RejectedByFaculty | RejectedByServer | CommError

  function Total(c: Counts): nat
  {
    c.served + c.rejectedByFaculty + c.rejectedByServer + c.commErrors
  }

  /** The counter of one outcome. */
  function CountOf(c: Counts, o: Outcome): nat
  {
    match o
    case Served => c.served
    case RejectedByFaculty => c.rejectedByFaculty
    case RejectedByServer => c.rejectedByServer
    case CommError => c.commErrors
  }

  /** One call of a `registrar_*` method on a stored record. */
  function Bumped(c: Counts, o: Outcome, faculty: string, stamp: string): Counts
  {
    var b := match o
      case Served => c.(served := c.served + 1)
      case RejectedByFaculty => c.(rejectedByFaculty := c.rejectedByFaculty + 1)
      case RejectedByServer => c.(rejectedByServer := c.rejectedByServer + 1)
      case CommError => c.(commErrors := c.commErrors + 1);
    b.(faculty := faculty, lastStamp := stamp)
  }

  /** A `registrar_*` call adds exactly one to its own counter, leaves the
      other three as they were, so the total grows by one, and records the
      faculty and the time. */
  lemma BumpedCounts(c: Counts, o: Outcome, faculty: string, stamp: string)
    ensures CountOf(Bumped(c, o, faculty, stamp), o) == CountOf(c, o) + 1
    ensures forall o2 :: o2 != o ==> CountOf(Bumped(c, o, faculty, stamp), o2) == CountOf(c, o2)
    ensures Total(Bumped(c, o, faculty, stamp)) == Total(c) + 1
    ensures Bumped(c, o, faculty, stamp).faculty == faculty && Bumped(c, o, faculty, stamp).lastStamp == stamp
  {
  }

  /** What indexing the `defaultdict` returns for `k`. */
  function Stored(d: seq<Entry<string, Counts>>, k: string): Counts
  {
    match Get(d, k)
    case Some(c) => c
    case None => Zero
  }

  /** A program never seen starts with its four counters at zero. */
  lemma UnseenIsZero(d: seq<Entry<string, Counts>>, k: string)
    requires !HasKey(d, k)
    ensures forall o :: CountOf(Stored(d, k), o) == 0
  {
  }

  /** What `calcular_metricas_por_programa` gives for one key, without the
      percentages. */
  datatype Summary = Summary(
    faculty: string, program: string,
    served: nat, rejectedByFaculty: nat, rejectedByServer: nat, commErrors: nat,
    total: nat, lastStamp: string)

  /** Every key holds a `|`, so `split('|', 1)` always unpacks. */
  predicate Keyed(d: seq<Entry<string, Counts>>)
  {
    forall i :: 0 <= i < |d| ==> '|' in d[i].key
  }

  function SummaryOf(key: string, c: Counts): (s: Summary)
    requires '|' in key
    ensures s.total == s.served + s.rejectedByFaculty + s.rejectedByServer + s.commErrors
    ensures s.faculty + "|" + s.program == key && '|' !in s.faculty
  {
    var parts := SplitFirst(key, '|').value;
    Summary(parts.0, parts.1, c.served, c.rejectedByFaculty, c.rejectedByServer, c.commErrors, Total(c), c.lastStamp)
  }

  /** `calcular_metricas_por_programa`: one summary per key, in key order. */
  function Summaries(d: seq<Entry<string, Counts>>): (r: seq<Entry<string, Summary>>)
    requires Keyed(d)
    ensures |r| == |d| && forall i :: 0 <= i < |d| ==> r[i] == Entry(d[i].key, SummaryOf(d[i].key, d[i].val))
  {
    seq(|d|, i requires 0 <= i < |d| && Keyed(d) => Entry(d[i].key, SummaryOf(d[i].key, d[i].val)))
  }

  /** Each summary's total is the sum of its four counters, and its faculty
      and program are those of the key, which is the registered faculty and
      program whenever the faculty has no `|`. */
  lemma SummaryOfKey(faculty: string, program: string, c: Counts)
    requires '|' !in faculty
    ensures SummaryOf(Key(faculty, program), c).faculty == faculty
    ensures SummaryOf(Key(faculty, program), c).program == program
    ensures SummaryOf(Key(faculty, program), c).total == Total(c)
  {
    KeySplits(faculty, program);
  }

  // ---------------------------------------------------------------------------
  // Grouping for the report
  // ---------------------------------------------------------------------------

  /** The summaries of `vs` whose faculty is `f`, in order. */
  function OfFaculty(vs: seq<Summary>, f: string): seq<Summary>
    decreases |vs|
  {
    if |vs| == 0 then []
    else OfFaculty(vs[..|vs| - 1], f) + (if vs[|vs| - 1].faculty == f then [vs[|vs| - 1]] else [])
  }

  function Listed(d: seq<Entry<string, seq<Summary>>>, f: string): seq<Summary>
  {
    match Get(d, f)
    case Some(l) => l
    case None => []
  }

  /** The grouping loop of `generar_reporte_por_programa`. */
  function Grouped(vs: seq<Summary>): seq<Entry<string, seq<Summary>>>
    decreases |vs|
  {
    if |vs| == 0 then []
    else
      var g := Grouped(vs[..|vs| - 1]);
      var v := vs[|vs| - 1];
      Put(g, v.faculty, Listed(g, v.faculty) + [v])
  }

  /** Each faculty's group lists exactly its summaries, in report order, and
      a faculty has a group only when some summary carries it. */
  lemma {:induction false} GroupedGet(vs: seq<Summary>, f: string)
    ensures DistinctKeys(Grouped(vs))
    ensures Get(Grouped(vs), f) == if OfFaculty(vs, f) == [] then None else Some(OfFaculty(vs, f))
    decreases |vs|
  {
    if |vs| > 0 {
      var pre := vs[..|vs| - 1];
      var g := Grouped(pre);
      var v := vs[|vs| - 1];
      GroupedGet(pre, f);
      GroupedGet(pre, v.faculty);
      PutSpec(g, v.faculty, Listed(g, v.faculty) + [v]);
      if v.faculty == f {
        assert OfFaculty(vs, f) == OfFaculty(pre, f) + [v];
        assert Listed(g, f) == OfFaculty(pre, f);
      } else {
        assert OfFaculty(vs, f) == OfFaculty(pre, f);
      }
    }
  }

  /** The number of summaries over all groups. */
  function Listings(d: seq<Entry<string, seq<Summary>>>): nat
    decreases |d|
  {
    if |d| == 0 then 0 else |d[0].val| + Listings(d[1..])
  }

  lemma {:induction false} ListingsPut(d: seq<Entry<string, seq<Summary>>>, k: string, v: seq<Summary>)
    ensures Listings(Put(d, k, v)) == Listings(d) - |Listed(d, k)| + |v|
    decreases |d|
  {
    if |d| == 0 {
      assert Put(d, k, v) == [Entry(k, v)];
      assert Listings([Entry(k, v)]) == |v| + Listings([Entry(k, v)][1..]);
    } else if d[0].key == k {
      assert Put(d, k, v) == [Entry(k, v)] + d[1..];
      assert (Put(d, k, v))[1..] == d[1..];
    } else {
      ListingsPut(d[1..], k, v);
      assert Put(d, k, v) == [d[0]] + Put(d[1..], k, v);
      assert (Put(d, k, v))[1..] == Put(d[1..], k, v);
      assert Get(d, k) == Get(d[1..], k);
    }
  }

  /** The report lists every summary once: the groups hold as many
      summaries as there are. */
  lemma {:induction false} GroupedListsAll(vs: seq<Summary>)
    ensures Listings(Grouped(vs)) == |vs|
    decreases |vs|
  {
    if |vs| > 0 {
      var pre := vs[..|vs| - 1];
      var g := Grouped(pre);
      var v := vs[|vs| - 1];
      GroupedListsAll(pre);
      ListingsPut(g, v.faculty, Listed(g, v.faculty) + [v]);
    }
  }

  /** What `generar_reporte_por_programa` reports: the fixed "no data" text
      for an empty map, otherwise the summaries grouped by faculty. */
  datatype Report = NoData(stamp: string) | ByFaculty(stamp: string, groups: seq<Entry<string, seq<Summary>>>)

  // ---------------------------------------------------------------------------
  // The monitor object
  // ---------------------------------------------------------------------------

  class ProgramMonitor {
    /** `requerimientos_por_programa`. */
    var programs: seq<Entry<string, Counts>>

    predicate Valid()
      reads this
    {
      DistinctKeys(programs) && Keyed(programs)
    }

    constructor ()
      ensures programs == [] && Valid()
    {
      programs := [];
    }

    /** The body every `registrar_*` method shares. */
    method Register(o: Outcome, faculty: string, program: string, stamp: string)
      modifies this
      requires Valid()
      ensures var k := Key(faculty, program);
        programs == Put(old(programs), k, Bumped(Stored(old(programs), k), o, faculty, stamp))
      ensures Valid()
    {
      var k := Key(faculty, program);
      var c := Stored(programs, k);
      PutSpec(programs, k, Bumped(c, o, faculty, stamp));
      programs := Put(programs, k, Bumped(c, o, faculty, stamp));
    }

    /** `registrar_requerimiento_atendido_satisfactoriamente`. */
    method RegisterServed(faculty: string, program: string, stamp: string)
      modifies this
      requires Valid()
      ensures var k := Key(faculty, program);
        programs == Put(old(programs), k, Bumped(Stored(old(programs), k), Served, faculty, stamp))
      ensures Valid()
    {
      Register(Served, faculty, program, stamp);
    }

    /** `registrar_requerimiento_rechazado_por_facultad`; the reason is not
        kept. */
    method RegisterRejectedByFaculty(faculty: string, program: string, stamp: string)
      modifies this
      requires Valid()
      ensures var k := Key(faculty, program);
        programs == Put(old(programs), k, Bumped(Stored(old(programs), k), RejectedByFaculty, faculty, stamp))
      ensures Valid()
    {
      Register(RejectedByFaculty, faculty, program, stamp);
    }

    /** `registrar_requerimiento_rechazado_por_servidor`; the reason is not
        kept. */
    method RegisterRejectedByServer(faculty: string, program: string, stamp: string)
      modifies this
      requires Valid()
      ensures var k := Key(faculty, program);
        programs == Put(old(programs), k, Bumped(Stored(old(programs), k), RejectedByServer, faculty, stamp))
      ensures Valid()
    {
      Register(RejectedByServer, faculty, program, stamp);
    }

    /** `registrar_error_comunicacion_programa`; the error type is not kept. */
    method RegisterCommError(faculty: string, program: string, stamp: string)
      modifies this
      requires Valid()
      ensures var k := Key(faculty, program);
        programs == Put(old(programs), k, Bumped(Stored(old(programs), k), CommError, faculty, stamp))
      ensures Valid()
    {
      Register(CommError, faculty, program, stamp);
    }

    /** `calcular_metricas_por_programa`. */
    function Computed(): seq<Entry<string, Summary>>
      reads this
      requires Valid()
    {
      Summaries(programs)
    }

    /** `generar_reporte_por_programa`, before it is rendered as text. */
    function ReportOf(stamp: string): (r: Report)
      reads this
      requires Valid()
      ensures r.NoData? <==> programs == []
    {
      if programs == [] then NoData(stamp) else ByFaculty(stamp, Grouped(Values(Summaries(programs))))
    }
  }

  /** After a `registrar_*` call the program's record is the stored one
      bumped, and every other program reads as before. */
  lemma RegisterEffect(d: seq<Entry<string, Counts>>, o: Outcome, faculty: string, program: string, stamp: string)
    requires DistinctKeys(d)
    ensures var k := Key(faculty, program);
      var d' := Put(d, k, Bumped(Stored(d, k), o, faculty, stamp));
      && CountOf(Stored(d', k), o) == CountOf(Stored(d, k), o) + 1
      && (forall o2 :: o2 != o ==> CountOf(Stored(d', k), o2) == CountOf(Stored(d, k), o2))
      && Stored(d', k).faculty == faculty
      && (forall k2 :: k2 != k ==> Get(d', k2) == Get(d, k2))
  {
    var k := Key(faculty, program);
    PutSpec(d, k, Bumped(Stored(d, k), o, faculty, stamp));
  }
}
