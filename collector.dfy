/**
 * The metrics collector (`RecolectorMetricas`): the server's response times
 * with success and failure counts, and one record of outcomes per academic
 * program under the key `facultad|programa`.  Clock readings are integer
 * ticks and timestamps opaque strings; averages and percentages are not part
 * of this model.
 */
module Collector {
  import opened Dicts
  import opened Monitor
  import ProgramMonitor

  /** `EstadisticasServidor`. */
  class ServerStats {
    /** `tiempos_respuesta`. */
    var times: seq<int>
    /** `total_solicitudes`. */
    var total: int
    /** `solicitudes_exitosas`. */
    var succeeded: int
    /** `solicitudes_fallidas`. */
    var failed: int

    /** Every measurement is counted once, as a success or as a failure. */
    predicate Valid()
      reads this
    {
      total == succeeded + failed == |times| && succeeded >= 0 && failed >= 0
    }

    constructor ()
      ensures times == [] && total == 0 && succeeded == 0 && failed == 0 && Valid()
    {
      times, total, succeeded, failed := [], 0, 0, 0;
    }

    /** `agregar_metrica`: the time is appended, the total counted, and
        exactly one of the two outcome counters raised. */
    method AddMetric(time: int, success: bool)
      modifies this
      ensures times == old(times) + [time] && total == old(total) + 1
      ensures success ==> succeeded == old(succeeded) + 1 && failed == old(failed)
      ensures !success ==> failed == old(failed) + 1 && succeeded == old(succeeded)
      ensures old(Valid()) ==> Valid()
    {
      times := times + [time];
      total := total + 1;
      if success {
        succeeded := succeeded + 1;
      } else {
        failed := failed + 1;
      }
    }

    /** `obtener_estadisticas` without the average: zeros for no times, and
        for the counters too, since they then are zero as well. */
    function Summary(): (s: (TimeStats, int, int, int))
      reads this
      ensures |times| == 0 ==> s == (TimeStats(0, 0, 0), 0, 0, 0)
      ensures |times| > 0 ==> s.0.count == |times| && s.0.minimum <= s.0.maximum
      ensures |times| > 0 ==> s.1 == total && s.2 == succeeded && s.3 == failed
    {
      if |times| == 0 then (TimeStats(0, 0, 0), 0, 0, 0) else (StatsOf(times), total, succeeded, failed)
    }
  }

  /** `MetricaPrograma`. */
  datatype ProgramMetric = ProgramMetric(
    faculty: string, program: string,
    successes: nat,         // requerimientos_exitosos
    rejectedByFaculty: nat, // requerimientos_rechazados_facultad
    rejectedByServer: nat,  // requerimientos_rechazados_servidor
    commErrors: nat,        // errores_comunicacion
    lastRecord: string)     // ultimo_registro

  /** `obtener_total_requerimientos`. */
  function TotalOf(m: ProgramMetric): (t: nat)
  {
    m.successes + m.rejectedByFaculty + m.rejectedByServer + m.commErrors
  }

  /** `registrar_solicitud_programa` on one record: the time is stored, and
      the counter named by `result`, if any, goes up by one. */
  function Recorded(m: ProgramMetric, result: string, stamp: string): ProgramMetric
  {
    var r := m.(lastRecord := stamp);
    if result == "exitoso" then r.(successes := r.successes + 1)
    else if result == "rechazado_facultad" then r.(rejectedByFaculty := r.rejectedByFaculty + 1)
    else if result == "rechazado_servidor" then r.(rejectedByServer := r.rejectedByServer + 1)
    else if result == "error_comunicacion" then r.(commErrors := r.commErrors + 1)
    else r
  }

  /** The four result names the collector counts. */
  predicate Known(result: string)
  {
    result in ["exitoso", "rechazado_facultad", "rechazado_servidor", "error_comunicacion"]
  }

  /** A known result adds one to the total and to its own counter; an
      unknown one changes no counter; either way the time is recorded and
      the faculty and program are kept. */
  lemma RecordedCounts(m: ProgramMetric, result: string, stamp: string)
    ensures var r := Recorded(m, result, stamp);
      && r.lastRecord == stamp && r.faculty == m.faculty && r.program == m.program
      && TotalOf(r) == TotalOf(m) + (if Known(result) then 1 else 0)
      && (result == "exitoso" <==> r.successes == m.successes + 1)
      && (result == "rechazado_facultad" <==> r.rejectedByFaculty == m.rejectedByFaculty + 1)
      && (result == "rechazado_servidor" <==> r.rejectedByServer == m.rejectedByServer + 1)
      && (result == "error_comunicacion" <==> r.commErrors == m.commErrors + 1)
  {
  }

  /** An exported entry of `obtener_metricas_programas`, without the
      percentages. */
  datatype Exported = Exported(
    faculty: string, program: string,
    successes: nat, rejectedByFaculty: nat, rejectedByServer: nat, commErrors: nat,
    total: nat, lastRecord: string)

  function ExportOf(m: ProgramMetric): (e: Exported)
    ensures e.total == e.successes + e.rejectedByFaculty + e.rejectedByServer + e.commErrors
    ensures e.faculty == m.faculty && e.program == m.program && e.lastRecord == m.lastRecord
  {
    Exported(m.faculty, m.program, m.successes, m.rejectedByFaculty, m.rejectedByServer, m.commErrors, TotalOf(m), m.lastRecord)
  }

  function Exports(d: seq<Entry<string, ProgramMetric>>): (r: seq<Entry<string, Exported>>)
    ensures |r| == |d| && forall i :: 0 <= i < |d| ==> r[i] == Entry(d[i].key, ExportOf(d[i].val))
  {
    seq(|d|, i requires 0 <= i < |d| => Entry(d[i].key, ExportOf(d[i].val)))
  }

  /** Exporting keeps the keys and their order, and every exported entry's
      total is the sum of its four exported counters. */
  lemma ExportsKeepKeys(d: seq<Entry<string, ProgramMetric>>)
    ensures Keys(Exports(d)) == Keys(d)
    ensures forall i :: 0 <= i < |d| ==>
      var e := Exports(d)[i].val;
      e.total == e.successes + e.rejectedByFaculty + e.rejectedByServer + e.commErrors
  {
    assert forall i :: 0 <= i < |d| ==> Keys(Exports(d))[i] == Keys(d)[i];
  }

  class MetricsCollector {
    /** `estadisticas_servidor`. */
    var server: ServerStats
    /** `metricas_programas`. */
    var programs: seq<Entry<string, ProgramMetric>>

    predicate Valid()
      reads this, server
    {
      server.Valid() && DistinctKeys(programs)
    }

    constructor ()
      ensures fresh(server) && server.times == [] && server.total == 0 && programs == [] && Valid()
    {
      server := new ServerStats();
      programs := [];
    }

    /** `finalizar_medicion_servidor`: the duration is recorded with its
        outcome and returned. */
    method FinishServerMeasurement(start: int, now: int, success: bool) returns (elapsed: int)
      modifies server
      requires Valid()
      ensures elapsed == now - start
      ensures server.times == old(server.times) + [elapsed] && server.total == old(server.total) + 1
      ensures success ==> server.succeeded == old(server.succeeded) + 1 && server.failed == old(server.failed)
      ensures !success ==> server.failed == old(server.failed) + 1 && server.succeeded == old(server.succeeded)
      ensures programs == old(programs) && Valid()
    {
      elapsed := now - start;
      server.AddMetric(elapsed, success);
    }

    /** `registrar_solicitud_programa`: the program's record is created on
        first use and then updated by `Recorded`; every other record stays. */
    method RegisterProgram(faculty: string, program: string, result: string, stamp: string)
      modifies this
      requires Valid()
      ensures server == old(server)
      ensures var k := ProgramMonitor.Key(faculty, program);
        var m := match Get(old(programs), k)
          case Some(m) => m
          case None => ProgramMetric(faculty, program, 0, 0, 0, 0, "");
        programs == Put(old(programs), k, Recorded(m, result, stamp))
      ensures Valid()
    {
      var k := ProgramMonitor.Key(faculty, program);
      var m := match Get(programs, k)
        case Some(m) => m
        case None => ProgramMetric(faculty, program, 0, 0, 0, 0, "");
      PutSpec(programs, k, Recorded(m, result, stamp));
      programs := Put(programs, k, Recorded(m, result, stamp));
    }

    /** `obtener_metricas_programas`. */
    function ProgramReport(): seq<Entry<string, Exported>>
      reads this
    {
      Exports(programs)
    }

    /** `limpiar_metricas`: fresh server statistics and no program records. */
    method Clear()
      modifies this
      ensures fresh(server) && server.times == [] && server.total == 0
      ensures server.succeeded == 0 && server.failed == 0
      ensures programs == [] && Valid()
    {
      server := new ServerStats();
      programs := [];
    }
  }

  /** Registering a program result touches only that program's record: the
      key now reads as the recorded record and every other key as before. */
  lemma RegisterTouchesOne(d: seq<Entry<string, ProgramMetric>>, faculty: string, program: string, result: string, stamp: string)
    requires DistinctKeys(d)
    ensures var k := ProgramMonitor.Key(faculty, program);
      var m := match Get(d, k)
        case Some(m) => m
        case None => ProgramMetric(faculty, program, 0, 0, 0, 0, "");
      var d' := Put(d, k, Recorded(m, result, stamp));
      && Get(d', k) == Some(Recorded(m, result, stamp))
      && (!HasKey(d, k) ==> TotalOf(Get(d', k).value) == (if Known(result) then 1 else 0))
      && (forall k2 :: k2 != k ==> Get(d', k2) == Get(d, k2))
  {
    var k := ProgramMonitor.Key(faculty, program);
    var m := match Get(d, k)
      case Some(m) => m
      case None => ProgramMetric(faculty, program, 0, 0, 0, 0, "");
    PutSpec(d, k, Recorded(m, result, stamp));
    RecordedCounts(m, result, stamp);
  }
}
