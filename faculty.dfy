/**
 * The faculty server (`facultad.py`): it reads the table of faculties and
 * their programs, answers each program's request on its REP socket, turns
 * away requests for unknown faculties and passes the others, tagged with the
 * instance and a simulated distance, to the broker, from whose reply it picks
 * the JSON frame.  Sockets are replaced by their inputs and outputs: the
 * broker exchange is a parameter, and what would be sent or recorded is
 * returned.
 */
module Faculty {
  import opened Dicts
  import opened Wire
  import opened PyText
  import Broker

  // ---------------------------------------------------------------------------
  // The faculty file
  // ---------------------------------------------------------------------------

  /** A text file as a reader sees it: whether it exists, the lines read
      before reading stopped, and whether it was read to its end without
      raising (a file that cannot be opened has no lines read). */
  datatype TextFile = TextFile(present: bool, lines: seq<string>, complete: bool)

  /** Faculty name to its programs, in insertion order. */
  type Faculties = seq<Entry<string, seq<string>>>

  /** A line stripped and split on `", "`. */
  function LineParts(line: string): (parts: seq<string>)
    ensures |parts| >= 1
  {
    Split(Strip(line), ", ")
  }

  /** Whether a line names a faculty: it has at least two parts. */
  predicate Defines(line: string, name: string)
  {
    |LineParts(line)| >= 2 && LineParts(line)[0] == name
  }

  /** The table the reading loop builds from `lines`: each line with at
      least two parts stores its first part under the rest, replacing an
      earlier line for the same faculty. */
  function FacultiesOf(lines: seq<string>): Faculties
    decreases |lines|
  {
    if lines == [] then []
    else
      var m := FacultiesOf(lines[..|lines| - 1]);
      var parts := LineParts(lines[|lines| - 1]);
      if |parts| >= 2 then Put(m, parts[0], parts[1..]) else m
  }

  /** One more line read extends the table of the lines before it. */
  lemma FacultiesOfSnoc(lines: seq<string>, i: int)
    requires 0 <= i < |lines|
    ensures var parts := LineParts(lines[i]);
      FacultiesOf(lines[..i + 1]) ==
        if |parts| >= 2 then Put(FacultiesOf(lines[..i]), parts[0], parts[1..]) else FacultiesOf(lines[..i])
  {
    assert lines[..i + 1][..i] == lines[..i];
  }

  /** The table never lists a faculty twice. */
  lemma {:induction false} FacultiesOfDistinct(lines: seq<string>)
    ensures DistinctKeys(FacultiesOf(lines))
    decreases |lines|
  {
    if lines != [] {
      var parts := LineParts(lines[|lines| - 1]);
      FacultiesOfDistinct(lines[..|lines| - 1]);
      if |parts| >= 2 {
        PutSpec(FacultiesOf(lines[..|lines| - 1]), parts[0], parts[1..]);
      }
    }
  }

  /** A faculty that no line defines is not in the table. */
  lemma {:induction false} FacultiesOfAbsent(lines: seq<string>, name: string)
    requires forall i :: 0 <= i < |lines| ==> !Defines(lines[i], name)
    ensures Get(FacultiesOf(lines), name) == None
    decreases |lines|
  {
    if lines != [] {
      var init := lines[..|lines| - 1];
      var parts := LineParts(lines[|lines| - 1]);
      assert forall i :: 0 <= i < |init| ==> init[i] == lines[i];
      FacultiesOfAbsent(init, name);
      FacultiesOfDistinct(init);
      if |parts| >= 2 {
        assert !Defines(lines[|lines| - 1], name);
        PutSpec(FacultiesOf(init), parts[0], parts[1..]);
      }
    }
  }

  /** The last line that defines a faculty decides its programs. */
  lemma {:induction false} FacultiesOfLatest(lines: seq<string>, i: int, name: string)
    requires 0 <= i < |lines| && Defines(lines[i], name)
    requires forall j :: i < j < |lines| ==> !Defines(lines[j], name)
    ensures Get(FacultiesOf(lines), name) == Some(LineParts(lines[i])[1..])
    decreases |lines|
  {
    var init := lines[..|lines| - 1];
    var parts := LineParts(lines[|lines| - 1]);
    var m := FacultiesOf(init);
    assert FacultiesOf(lines) == if |parts| >= 2 then Put(m, parts[0], parts[1..]) else m;
    FacultiesOfDistinct(init);
    if i < |lines| - 1 {
      assert init[i] == lines[i];
      assert forall j :: i < j < |init| ==> !Defines(init[j], name) by {
        assert forall j :: i < j < |init| ==> init[j] == lines[j];
      }
      FacultiesOfLatest(init, i, name);
      if |parts| >= 2 {
        assert parts[0] != name by { assert !Defines(lines[|lines| - 1], name); }
        assert Get(Put(m, parts[0], parts[1..]), name) == Get(m, name) by { PutSpec(m, parts[0], parts[1..]); }
      }
    } else {
      assert Get(Put(m, name, parts[1..]), name) == Some(parts[1..]) by { PutSpec(m, name, parts[1..]); }
    }
  }

  /** Nothing of a stored line is lost: the faculty and its programs joined
      again with `", "` give the stripped line back. */
  lemma LineRejoins(line: string)
    ensures Join(LineParts(line), ", ") == Strip(line)
    ensures |LineParts(line)| >= 2 ==>
      Join([LineParts(line)[0]] + LineParts(line)[1..], ", ") == Strip(line)
  {
    SplitJoin(Strip(line), ", ");
    assert [LineParts(line)[0]] + LineParts(line)[1..] == LineParts(line);
  }

  /** `leer_facultades`: the table of the whole file, or an empty table when
      opening or reading it raised. */
  method ReadFaculties(file: TextFile) returns (m: Faculties)
    ensures m == (if file.present && file.complete then FacultiesOf(file.lines) else [])
    ensures DistinctKeys(m)
  {
    if !file.present {
      return [];
    }
    m := [];
    var lines := file.lines;
    var i := 0;
    while i < |lines|
      invariant 0 <= i <= |lines|
      invariant m == FacultiesOf(lines[..i])
    {
      var parts := LineParts(lines[i]);
      FacultiesOfSnoc(lines, i);
      if |parts| >= 2 {
        m := Put(m, parts[0], parts[1..]);
      }
      i := i + 1;
    }
    assert lines[..i] == lines;
    if !file.complete {
      m := [];
    }
    FacultiesOfDistinct(lines);
  }

  // ---------------------------------------------------------------------------
  // The instance name
  // ---------------------------------------------------------------------------

  /** `url.split(":")[-1]`. */
  function InstanceId(url: string): string
  {
    var parts := Split(url, [':']);
    parts[|parts| - 1]
  }

  /** The last part of a split on one character holds no such character and
      ends the string, right behind that character when there is one; with
      no such character the string is its only part. */
  ghost predicate SplitFacts(s: string, c: char)
  {
    var parts := Split(s, [c]);
    var last := parts[|parts| - 1];
    && (c !in s ==> parts == [s])
    && (c in s ==> |parts| >= 2)
    && c !in last && |last| <= |s| && s[|s| - |last|..] == last
    && (c in s ==> |last| < |s| && s[|s| - |last| - 1] == c)
  }

  lemma {:induction false} SplitLast(s: string, c: char)
    ensures SplitFacts(s, c)
    decreases |s|
  {
    if |s| >= 1 {
      SplitLast(s[1..], c);
      if s[0] == c {
        SplitLastAtSeparator(s, c);
      } else {
        SplitLastInPart(s, c);
      }
    }
  }

  /** A leading separator adds an empty first part. */
  lemma SplitLastAtSeparator(s: string, c: char)
    requires |s| >= 1 && s[0] == c && SplitFacts(s[1..], c)
    ensures SplitFacts(s, c)
  {
    var tail := s[1..];
    var rest := Split(tail, [c]);
    var last := rest[|rest| - 1];
    assert s == [s[0]] + tail;
    assert StartsWith(s, [c]);
    assert Split(s, [c]) == [""] + rest;
    assert s[|s| - |last|..] == tail[|tail| - |last|..];
  }

  /** A leading other character joins the first part. */
  lemma SplitLastInPart(s: string, c: char)
    requires |s| >= 1 && s[0] != c && SplitFacts(s[1..], c)
    ensures SplitFacts(s, c)
  {
    var tail := s[1..];
    var rest := Split(tail, [c]);
    var last := rest[|rest| - 1];
    assert s == [s[0]] + tail;
    assert c in s <==> c in tail;
    assert !StartsWith(s, [c]);
    var parts := Split(s, [c]);
    assert parts == [[s[0]] + rest[0]] + rest[1..];
    if c in tail {
      assert parts[|parts| - 1] == last;
      assert s[|s| - |last|..] == tail[|tail| - |last|..];
      assert s[|s| - |last| - 1] == tail[|tail| - |last| - 1];
    } else {
      assert parts == [s];
    }
  }

  /** The instance is the text after the URL's last `:`, the whole URL when
      it has none. */
  lemma InstanceAfterLastColon(url: string)
    ensures var id := InstanceId(url);
      && ':' !in id && |id| <= |url| && url[|url| - |id|..] == id
      && (':' in url ==> |id| < |url| && url[|url| - |id| - 1] == ':')
      && (':' !in url ==> id == url)
  {
    SplitLast(url, ':');
  }

  // ---------------------------------------------------------------------------
  // The broker's reply
  // ---------------------------------------------------------------------------

  /** What the reverse scan of the reply frames finds. */
  datatype Scan =
    | Found(value: Json)      // the first frame from the end that parsed
    | NoneFound               // every frame was empty or not JSON
    | Undecodable(detail: string) // a frame was not UTF-8; the scan raised

  /** A frame the scan passes over: empty, or text that is not JSON. */
  predicate Skipped(codec: Codec, f: Frame)
  {
    f == [] || codec.decode(f).NotJson?
  }

  /** The scan of `frames[..n]`, from its last frame to its first. */
  function ScanFrom(codec: Codec, frames: seq<Frame>, n: nat): Scan
    requires n <= |frames|
    decreases n
  {
    if n == 0 then NoneFound
    else if frames[n - 1] == [] then ScanFrom(codec, frames, n - 1)
    else
      match codec.decode(frames[n - 1])
      case Parsed(j) => Found(j)
      case NotJson => ScanFrom(codec, frames, n - 1)
      case NotText(d) => Undecodable(d)
  }

  /** The scan finds nothing exactly when every frame is skipped. */
  lemma {:induction false} ScanNone(codec: Codec, frames: seq<Frame>, n: nat)
    requires n <= |frames|
    ensures ScanFrom(codec, frames, n) == NoneFound <==> forall i :: 0 <= i < n ==> Skipped(codec, frames[i])
    decreases n
  {
    if n > 0 {
      ScanNone(codec, frames, n - 1);
    }
  }

  /** The scan stops at the last frame that is not skipped: it yields that
      frame's value, or raises with its decoding error. */
  lemma {:induction false} ScanStops(codec: Codec, frames: seq<Frame>, n: nat, i: int)
    requires 0 <= i < n <= |frames| && !Skipped(codec, frames[i])
    requires forall k :: i < k < n ==> Skipped(codec, frames[k])
    ensures codec.decode(frames[i]).Parsed? ==> ScanFrom(codec, frames, n) == Found(codec.decode(frames[i]).value)
    ensures codec.decode(frames[i]).NotText? ==> ScanFrom(codec, frames, n) == Undecodable(codec.decode(frames[i]).detail)
    decreases n
  {
    if i < n - 1 {
      assert Skipped(codec, frames[n - 1]);
      ScanStops(codec, frames, n - 1, i);
    }
  }

  /** The loop of `enviar_a_broker` over `reversed(response_frames)`, with
      its `break` at the first frame that parses. */
  method ExtractReply(codec: Codec, frames: seq<Frame>) returns (s: Scan)
    ensures s == ScanFrom(codec, frames, |frames|)
  {
    var i := |frames|;
    while i > 0
      invariant 0 <= i <= |frames|
      invariant ScanFrom(codec, frames, |frames|) == ScanFrom(codec, frames, i)
    {
      var f := frames[i - 1];
      if f != [] {
        var d := codec.decode(f);
        if d.Parsed? {
          return Found(d.value);
        }
        if d.NotText? {
          return Undecodable(d.detail);
        }
      }
      i := i - 1;
    }
    return NoneFound;
  }

  /** How the exchange with the broker ended. */
  datatype Exchange =
    | Received(frames: seq<Frame>) // the reply frames
    | TimedOut                     // `zmq.Again` (`EAGAIN`) from the receive
    | ZmqFailed(detail: string)    // any other `zmq.ZMQError`

  /** The reply of `enviar_a_broker`, and the operation name it records with
      the server's response time. */
  datatype BrokerAnswer = BrokerAnswer(reply: Json, operation: string)

  const NoJsonReply := "No se pudo extraer datos JSON de la respuesta"
  const TimeoutReply := "Timeout esperando respuesta del broker (posiblemente ocupado)"

  /** The reply chosen from the exchange, given what the scan of its
      frames found. */
  function AnswerOf(ex: Exchange, scan: Scan): BrokerAnswer
  {
    match ex
    case Received(_) =>
      (match scan
       case Found(j) =>
         if Truthy(j) then BrokerAnswer(j, "respuesta_exitosa")
         else BrokerAnswer(ErrorObject(NoJsonReply), "respuesta_invalida")
       case NoneFound => BrokerAnswer(ErrorObject(NoJsonReply), "respuesta_invalida")
       case Undecodable(d) => BrokerAnswer(ErrorObject("Error de comunicación con el broker: " + d), "error_general"))
    case TimedOut => BrokerAnswer(ErrorObject(TimeoutReply), "error_zmq")
    case ZmqFailed(d) => BrokerAnswer(ErrorObject("Error de comunicación ZMQ con el broker: " + d), "error_zmq")
  }

  /** The reply of an exchange: the value the scan found when it is truthy,
      a fixed error for no value or a falsy one, an error with the
      exception's text otherwise. */
  function Answer(codec: Codec, ex: Exchange): (a: BrokerAnswer)
    ensures a.operation == "respuesta_exitosa" <==>
      ex.Received? && ScanFrom(codec, ex.frames, |ex.frames|).Found? && Truthy(ScanFrom(codec, ex.frames, |ex.frames|).value)
    ensures a.operation == "respuesta_exitosa" ==> a.reply == ScanFrom(codec, ex.frames, |ex.frames|).value
    ensures a.operation == "respuesta_invalida" <==>
      ex.Received? && (ScanFrom(codec, ex.frames, |ex.frames|).NoneFound?
        || (ScanFrom(codec, ex.frames, |ex.frames|).Found? && !Truthy(ScanFrom(codec, ex.frames, |ex.frames|).value)))
    ensures a.operation == "respuesta_invalida" ==> a.reply == ErrorObject(NoJsonReply)
    ensures a.operation == "error_zmq" <==> !ex.Received?
    ensures a.operation != "respuesta_exitosa" ==>
      a.reply.JObj? && a.reply.members != [] && a.reply.members[0].key == "error"
  {
    AnswerOf(ex, if ex.Received? then ScanFrom(codec, ex.frames, |ex.frames|) else NoneFound)
  }

  /** A reply of only empty and non-JSON frames, or whose last JSON frame
      holds a falsy value, always becomes the fixed error. */
  lemma NoJsonGivesFixedError(codec: Codec, frames: seq<Frame>)
    requires forall i :: 0 <= i < |frames| ==> Skipped(codec, frames[i])
    ensures Answer(codec, Received(frames)) == BrokerAnswer(ErrorObject(NoJsonReply), "respuesta_invalida")
  {
    ScanNone(codec, frames, |frames|);
  }

  /** The request forwarded for a valid faculty: tagged with the instance
      and then with the faculty's distance. */
  function Tagged(members: seq<Entry<string, Json>>, faculty: string, instance: string): (r: seq<Entry<string, Json>>)
  {
    Put(Put(members, "facultad_instance", JStr(instance)), "distance", JInt(Broker.Distance(faculty)))
  }

  /** The forwarded request keeps every member of the program's request
      except the two tags, which it adds or overwrites. */
  lemma TaggedMembers(members: seq<Entry<string, Json>>, faculty: string, instance: string)
    requires DistinctKeys(members)
    ensures var r := Tagged(members, faculty, instance);
      && DistinctKeys(r)
      && Get(r, "facultad_instance") == Some(JStr(instance))
      && Get(r, "distance") == Some(JInt(Broker.Distance(faculty)))
      && 1 <= Broker.Distance(faculty) <= 10
      && (forall k :: k != "facultad_instance" && k != "distance" ==> Get(r, k) == Get(members, k))
  {
    PutSpec(members, "facultad_instance", JStr(instance));
    PutSpec(Put(members, "facultad_instance", JStr(instance)), "distance", JInt(Broker.Distance(faculty)));
  }

  /** `send_multipart([b"", json.dumps(solicitud)])`. */
  function Outgoing(codec: Codec, members: seq<Entry<string, Json>>, faculty: string, instance: string): seq<Frame>
  {
    [Empty, codec.encode(JObj(Tagged(members, faculty, instance)))]
  }

  // ---------------------------------------------------------------------------
  // The server loop
  // ---------------------------------------------------------------------------

  /** `d.get(key, default)`. */
  function GetOr(members: seq<Entry<string, Json>>, key: string, default: Json): Json
  {
    match Get(members, key)
    case Some(v) => v
    case None => default
  }

  /** How the faculty check of a request ends: unknown faculties are
      rejected, a list or object as `facultad` raises `TypeError` since it
      cannot be a dictionary key, and a known one is forwarded. */
  datatype Check = Valid(faculty: string) | Invalid | Unhashable(typeName: string)

  function CheckOf(faculties: Faculties, members: seq<Entry<string, Json>>): (c: Check)
    ensures c.Valid? <==> exists f :: Get(members, "facultad") == Some(JStr(f)) && HasKey(faculties, f)
    ensures c.Valid? ==> Get(members, "facultad") == Some(JStr(c.faculty))
    ensures c.Unhashable? <==> Get(members, "facultad").Some? && (Get(members, "facultad").value.JArr? || Get(members, "facultad").value.JObj?)
  {
    var v := Get(members, "facultad");
    if v.None? then Invalid
    else if v.value.JStr? then (if HasKey(faculties, v.value.s) then Valid(v.value.s) else Invalid)
    else if v.value.JArr? || v.value.JObj? then Unhashable(TypeName(v.value))
    else Invalid
  }

  /** Everything one request causes besides the reply. */
  datatype Effects = Effects(
    toBroker: Option<seq<Frame>>,                 // the request passed on
    serverTime: Option<(string, string)>,         // faculty and operation recorded with the response time
    rejection: Option<(Json, Json)>)              // facultad and programa of a rejected request

  const NoEffects := Effects(None, None, None)

  const InvalidFaculty := "Facultad no válida"

  class FacultyServer {
    /** The faculty table read at start. */
    var faculties: Faculties
    /** `instance_id`. */
    var instance: string
    /** `solicitudes_procesadas`. */
    var processed: nat

    /** `iniciar_servidor` up to its loop. */
    constructor (file: TextFile, url: string)
      ensures faculties == (if file.present && file.complete then FacultiesOf(file.lines) else [])
      ensures instance == InstanceId(url) && processed == 0
    {
      var table := ReadFaculties(file);
      faculties := table;
      instance := InstanceId(url);
      processed := 0;
    }

    /** One received message of the loop.  `frame` is the message, `ex` what
        the broker exchange ends with should the request be passed on. */
    method Handle(codec: Codec, frame: Frame, ex: Exchange) returns (reply: Json, effects: Effects)
      modifies this
      ensures faculties == old(faculties) && instance == old(instance)
      ensures codec.decode(frame).NotText? ==>
        reply == ErrorObject("Error: " + codec.decode(frame).detail) && effects == NoEffects && processed == old(processed)
      ensures codec.decode(frame).NotJson? ==>
        reply == ErrorObject("Formato de solicitud inválido") && effects == NoEffects && processed == old(processed)
      ensures codec.decode(frame).Parsed? ==> processed == old(processed) + 1
      ensures codec.decode(frame).Parsed? && !codec.decode(frame).value.JObj? ==>
        reply == ErrorObject("Error: '" + TypeName(codec.decode(frame).value) + "' object has no attribute 'get'")
        && effects == NoEffects
      ensures codec.decode(frame).Parsed? && codec.decode(frame).value.JObj? ==>
        var members := codec.decode(frame).value.members;
        match CheckOf(faculties, members)
        case Unhashable(t) => reply == ErrorObject("Error: unhashable type: '" + t + "'") && effects == NoEffects
        case Invalid =>
          reply == ErrorObject(InvalidFaculty)
          && effects == Effects(None, None, Some((GetOr(members, "facultad", JStr("Desconocida")), GetOr(members, "programa", JStr("Desconocido")))))
        case Valid(f) =>
          reply == Answer(codec, ex).reply
          && effects == Effects(Some(Outgoing(codec, members, f, instance)), Some((f, Answer(codec, ex).operation)), None)
    {
      var d := codec.decode(frame);
      match d {
        case NotText(detail) =>
          return ErrorObject("Error: " + detail), NoEffects;
        case NotJson =>
          return ErrorObject("Formato de solicitud inválido"), NoEffects;
        case Parsed(j) =>
          processed := processed + 1;
          if !j.JObj? {
            return ErrorObject("Error: '" + TypeName(j) + "' object has no attribute 'get'"), NoEffects;
          }
          var check := CheckOf(faculties, j.members);
          match check {
            case Unhashable(t) =>
              return ErrorObject("Error: unhashable type: '" + t + "'"), NoEffects;
            case Invalid =>
              var rejected := (GetOr(j.members, "facultad", JStr("Desconocida")), GetOr(j.members, "programa", JStr("Desconocido")));
              return ErrorObject(InvalidFaculty), Effects(None, None, Some(rejected));
            case Valid(f) =>
              var sent := Outgoing(codec, j.members, f, instance);
              var scan: Scan := NoneFound;
              if ex.Received? {
                scan := ExtractReply(codec, ex.frames);
              }
              var answer := AnswerOf(ex, scan);
              return answer.reply, Effects(Some(sent), Some((f, answer.operation)), None);
          }
      }
    }
  }
}
