/**
 * The metric decorators of `decoradores_metricas.py`.  A wrapped call is
 * given by how it ended (a returned value or a raised exception) and a
 * decorator's one call into the collector is returned as a value beside the
 * outcome the caller sees.  Clock readings are left to the collector.
 */
module Decorators {
  import opened Dicts
  import opened Wire
  import opened PyText
  import Collector
  import Faculty

  /** How the wrapped function ended. */
  datatype Call = Returned(value: Json) | Raised(detail: string)

  /** The arguments of the one `registrar_solicitud_programa` call a wrapped
      request makes: faculty and program as read from the request, the
      result name and the exception text (empty when none). */
  datatype ProgramRecord = ProgramRecord(faculty: Json, program: Json, result: string, detail: string)

  /** What classifying a result gives: a result name, or the exception that
      inspecting the `error` value raised. */
  datatype Kind = Named(name: string) | Fails(detail: string)

  const FacultyRejected := "Facultad no válida"

  /** `exitosa` in `medir_tiempo_servidor`: the call returned, and not a
      dict with an `error` key. */
  predicate ServerSuccess(c: Call)
  {
    c.Returned? && !(c.value.JObj? && HasKey(c.value.members, "error"))
  }

  /** `medir_tiempo_servidor`: the outcome passes through unchanged and the
      server measurement is recorded with the success flag. */
  function MeasureServer(c: Call): (r: (Call, bool))
    ensures r.0 == c
    ensures r.1 ==> c.Returned?
    ensures c.Returned? && c.value.JObj? && HasKey(c.value.members, "error") ==> !r.1
    ensures c.Returned? && !c.value.JObj? ==> r.1
  {
    (c, ServerSuccess(c))
  }

  /** The classification of an `error` value.  A string is tested for the
      faculty rejection first and then, lower-cased, for "comunicación".  A
      list or dict is searched for the rejection text by `in` and otherwise
      has no `lower`; `in` on a number, a boolean or `None` is a `TypeError`. */
  function ErrorKind(e: Json): (k: Kind)
  {
    match e
    case JStr(s) =>
      if Contains(s, FacultyRejected) then Named("rechazado_facultad")
      else if Contains(Lower(s), "comunicación") then Named("error_comunicacion")
      else Named("rechazado_servidor")
    case JArr(items) =>
      if JStr(FacultyRejected) in items then Named("rechazado_facultad")
      else Fails("'list' object has no attribute 'lower'")
    case JObj(members) =>
      if HasKey(members, FacultyRejected) then Named("rechazado_facultad")
      else Fails("'dict' object has no attribute 'lower'")
    case _ => Fails("argument of type '" + TypeName(e) + "' is not iterable")
  }

  /** The classification of a returned value: anything but a dict with an
      `error` key is a success. */
  function Classify(v: Json): (k: Kind)
  {
    if v.JObj? && HasKey(v.members, "error") then ErrorKind(Get(v.members, "error").value) else Named("exitoso")
  }

  /** Classification names a result the collector counts, succeeds exactly
      on the values the server decorator counts as successes, and for a
      string error follows the order of the tests. */
  lemma ClassifyNames(v: Json)
    ensures Classify(v).Named? ==> Collector.Known(Classify(v).name)
    ensures Classify(v) == Named("exitoso") <==> ServerSuccess(Returned(v))
    ensures v.JObj? && Get(v.members, "error").Some? && Get(v.members, "error").value.JStr? ==>
      var s := Get(v.members, "error").value.s;
      && Classify(v).Named?
      && (Classify(v).name == "rechazado_facultad" <==> Contains(s, FacultyRejected))
      && (Classify(v).name == "error_comunicacion" <==> !Contains(s, FacultyRejected) && Contains(Lower(s), "comunicación"))
      && (Classify(v).name == "rechazado_servidor" <==> !Contains(s, FacultyRejected) && !Contains(Lower(s), "comunicación"))
  {
  }

  /** `registrar_solicitud_programa`: the outcome the caller sees and the one
      record made.  A request that is not a dict fails on `get` before
      anything is recorded; a raised exception, or one raised while
      classifying, is recorded as a communication error and re-raised. */
  function RecordProgram(request: Json, c: Call): (r: (Call, Option<ProgramRecord>))
    ensures r.1.None? <==> !request.JObj?
    ensures r.1.Some? ==> Collector.Known(r.1.value.result)
    ensures request.JObj? && r.0.Returned? ==> r.0 == c
    ensures request.JObj? && c.Raised? ==> r.0 == c && r.1.value.result == "error_comunicacion"
    ensures request.JObj? && r.0.Raised? ==> r.1.value.result == "error_comunicacion" && r.1.value.detail == r.0.detail
    ensures request.JObj? ==>
      && r.1.value.faculty == (if HasKey(request.members, "facultad") then Get(request.members, "facultad").value else JStr("Desconocida"))
      && r.1.value.program == (if HasKey(request.members, "programa") then Get(request.members, "programa").value else JStr("Desconocido"))
  {
    if !request.JObj? then (Raised("'" + TypeName(request) + "' object has no attribute 'get'"), None)
    else
      var f := Faculty.GetOr(request.members, "facultad", JStr("Desconocida"));
      var p := Faculty.GetOr(request.members, "programa", JStr("Desconocido"));
      match c
      case Raised(d) => (c, Some(ProgramRecord(f, p, "error_comunicacion", d)))
      case Returned(v) =>
        ClassifyNames(v);
        match Classify(v)
        case Named(k) => (c, Some(ProgramRecord(f, p, k, "")))
        case Fails(d) => (Raised(d), Some(ProgramRecord(f, p, "error_comunicacion", d)))
  }

  /** A returned value is passed back unchanged exactly when classifying it
      raised nothing, and then its record carries the classification. */
  lemma RecordProgramReturns(request: Json, v: Json)
    requires request.JObj?
    ensures var r := RecordProgram(request, Returned(v));
      && (r.0 == Returned(v) <==> Classify(v).Named?)
      && (Classify(v).Named? ==> r.1.value.result == Classify(v).name && r.1.value.detail == "")
      && (Classify(v).Fails? ==> r.0 == Raised(Classify(v).detail))
  {
  }

  // ---------------------------------------------------------------------------
  // The faculty server's replies, classified
  // ---------------------------------------------------------------------------

  /** The reply `{"error": msg}` is classified by its message. */
  lemma ErrorObjectClassified(msg: string)
    ensures Classify(ErrorObject(msg)) == ErrorKind(JStr(msg))
  {
    var m := ErrorObject(msg).members;
    assert m[0].key == "error";
    assert Get(m, "error") == Some(JStr(msg));
  }

  /** Lower-casing keeps every occurrence of a piece, lower-cased. */
  lemma {:induction false} ContainsLower(s: string, t: string)
    requires Contains(s, t)
    ensures Contains(Lower(s), Lower(t))
    decreases |s|
  {
    if StartsWith(s, t) {
      assert Lower(s)[..|t|] == Lower(t);
    } else {
      ContainsLower(s[1..], t);
      assert Lower(s)[1..] == Lower(s[1..]);
    }
  }

  lemma ContainsMiddle(a: string, t: string, b: string)
    ensures Contains(a + t + b, t)
  {
    assert (a + t + b)[|a|..|a| + |t|] == t;
    ContainsAt(a + t + b, t, |a|);
  }

  lemma LowerWord()
    ensures Lower("comunicación") == "comunicación"
  {
  }

  /** The faculty's rejection of an unknown faculty counts as a faculty
      rejection. */
  lemma InvalidFacultyClassified()
    ensures Classify(ErrorObject(Faculty.InvalidFaculty)) == Named("rechazado_facultad")
  {
    assert Faculty.InvalidFaculty == "" + FacultyRejected + "";
    RejectionClassified("", "");
  }

  /** An error message that contains the rejection text counts as a faculty
      rejection, whatever surrounds it. */
  lemma RejectionClassified(a: string, b: string)
    ensures Classify(ErrorObject(a + FacultyRejected + b)) == Named("rechazado_facultad")
  {
    ErrorObjectClassified(a + FacultyRejected + b);
    ContainsMiddle(a, FacultyRejected, b);
  }

  /** The reply to a ZMQ failure talks of communication, so it is never
      counted as a success or as a server rejection. */
  lemma ZmqFailureClassified(scan: Faculty.Scan, detail: string)
    ensures var k := Classify(Faculty.AnswerOf(Faculty.ZmqFailed(detail), scan).reply);
      k == Named("rechazado_facultad") || k == Named("error_comunicacion")
  {
    ZmqPrefixSplit();
    PrefixedCommunication("Error de comunicación ZMQ con el broker: ", "Error de ", " ZMQ con el broker: ", detail);
  }

  lemma ZmqPrefixSplit()
    ensures "Error de comunicación ZMQ con el broker: " == "Error de " + "comunicación" + " ZMQ con el broker: "
  {
  }

  /** A message whose prefix mentions "comunicación" is a faculty rejection
      or a communication error. */
  lemma PrefixedCommunication(p: string, a: string, b: string, d: string)
    requires p == a + "comunicación" + b
    ensures var k := Classify(ErrorObject(p + d));
      k == Named("rechazado_facultad") || k == Named("error_comunicacion")
  {
    assert p + d == a + "comunicación" + (b + d);
    CommunicationClassified(a, b + d);
  }

  /** An error message that mentions "comunicación" is a faculty rejection
      or a communication error. */
  lemma CommunicationClassified(a: string, b: string)
    ensures var k := Classify(ErrorObject(a + "comunicación" + b));
      k == Named("rechazado_facultad") || k == Named("error_comunicacion")
  {
    var msg := a + "comunicación" + b;
    ErrorObjectClassified(msg);
    ContainsMiddle(a, "comunicación", b);
    ContainsLower(msg, "comunicación");
    LowerWord();
  }
}
