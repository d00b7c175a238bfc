/**
 * The academic program client (`programa_academico.py`): it loads the
 * faculty table, reads the user's choices from standard input, builds one
 * room request per selected program and sends the requests round-robin over
 * the faculty servers' sockets.  Standard input is a sequence of lines that
 * the reading operations consume and hand back shortened; the sockets are
 * only their number.
 */
module Programs {
  import opened Dicts
  import opened Wire
  import opened PyText
  import Faculty
  import Rooms

  // ---------------------------------------------------------------------------
  // Loading the faculty table
  // ---------------------------------------------------------------------------

  /** `cargar_facultades`: a missing file gives an empty table; otherwise the
      lines read so far are kept, even when reading stopped on an error. */
  method LoadFaculties(file: Faculty.TextFile) returns (m: Faculty.Faculties)
    ensures m == (if file.present then Faculty.FacultiesOf(file.lines) else [])
    ensures DistinctKeys(m)
  {
    m := [];
    if !file.present {
      return;
    }
    var lines := file.lines;
    var i := 0;
    while i < |lines|
      invariant 0 <= i <= |lines|
      invariant m == Faculty.FacultiesOf(lines[..i])
    {
      var data := Faculty.LineParts(lines[i]);
      Faculty.FacultiesOfSnoc(lines, i);
      i := i + 1;
      if |data| < 2 {
        continue;
      }
      m := Put(m, data[0], data[1..]);
    }
    assert lines[..i] == lines;
    Faculty.FacultiesOfDistinct(lines);
  }

  // ---------------------------------------------------------------------------
  // Reading a number
  // ---------------------------------------------------------------------------

  /** The test of `solicitar_numero`: a value is refused only when a maximum
      is given, is not zero, and the value lies outside the range. */
  predicate Accepts(v: int, minimum: int, maximum: Option<int>)
  {
    !(maximum.Some? && maximum.value != 0 && (v < minimum || v > maximum.value))
  }

  /** Without a (non-zero) maximum every value is accepted, also one below
      the minimum; with one, exactly the values in the closed range are. */
  lemma AcceptsRange(v: int, minimum: int, maximum: Option<int>)
    ensures maximum.None? || maximum.value == 0 ==> Accepts(v, minimum, maximum)
    ensures maximum.Some? && maximum.value != 0 ==>
      (Accepts(v, minimum, maximum) <==> minimum <= v <= maximum.value)
  {
  }

  /** What `int()` makes of each input line: `None` where it raises
      `ValueError`. */
  function Parsed(input: seq<string>): (vs: seq<Option<int>>)
    ensures |vs| == |input| && forall k :: 0 <= k < |input| ==> vs[k] == ParseInt(input[k])
  {
    seq(|input|, k requires 0 <= k < |input| => ParseInt(input[k]))
  }

  lemma ParsedTail(input: seq<string>)
    requires input != []
    ensures Parsed(input[1..]) == Parsed(input)[1..]
  {
  }

  /** `rest` is what is left of `input` after some lines were read. */
  predicate Suffix<T(==)>(rest: seq<T>, input: seq<T>)
  {
    |rest| <= |input| && rest == input[|input| - |rest|..]
  }

  /** A parsed line that ends the retry loop. */
  predicate Answers(value: Option<int>, minimum: int, maximum: Option<int>)
  {
    value.Some? && Accepts(value.value, minimum, maximum)
  }

  /** The value the retry loop returns and the parsed input it leaves;
      `None` when the input ends first (Python's `input` raises
      `EOFError`). */
  function Asked(vs: seq<Option<int>>, minimum: int, maximum: Option<int>): (r: (Option<int>, seq<Option<int>>))
    decreases |vs|
  {
    if vs == [] then (None, [])
    else if Answers(vs[0], minimum, maximum) then (vs[0], vs[1..])
    else Asked(vs[1..], minimum, maximum)
  }

  /** The loop returns the first line that answers, consuming it and every
      line before it, each of which was refused. */
  lemma {:induction false} AskedFirstAnswer(vs: seq<Option<int>>, minimum: int, maximum: Option<int>)
    ensures var (v, rest) := Asked(vs, minimum, maximum);
      var used := |vs| - |rest|;
      && Suffix(rest, vs)
      && (v.Some? ==> used >= 1 && Answers(vs[used - 1], minimum, maximum) && v == vs[used - 1]
                      && forall k :: 0 <= k < used - 1 ==> !Answers(vs[k], minimum, maximum))
      && (v.None? ==> rest == [] && forall k :: 0 <= k < |vs| ==> !Answers(vs[k], minimum, maximum))
    decreases |vs|
  {
    if vs != [] && !Answers(vs[0], minimum, maximum) {
      var tail := vs[1..];
      AskedFirstAnswer(tail, minimum, maximum);
      var rest := Asked(tail, minimum, maximum).1;
      var used := |tail| - |rest|;
      assert tail[used..] == vs[used + 1..];
      assert forall k :: 1 <= k < |vs| ==> vs[k] == tail[k - 1];
    }
  }

  /** `solicitar_numero`: lines are read until one parses to an accepted
      value. */
  method AskNumber(input: seq<string>, minimum: int, maximum: Option<int>) returns (v: Option<int>, rest: seq<string>)
    ensures Suffix(rest, input) && (v, Parsed(rest)) == Asked(Parsed(input), minimum, maximum)
  {
    rest := input;
    while rest != []
      invariant Suffix(rest, input)
      invariant Asked(Parsed(input), minimum, maximum) == Asked(Parsed(rest), minimum, maximum)
      decreases |rest|
    {
      var value := ParseInt(rest[0]);
      ParsedTail(rest);
      if value.Some? && Accepts(value.value, minimum, maximum) {
        return value, rest[1..];
      }
      rest := rest[1..];
    }
    return None, [];
  }

  /** The three numbers of a request. */
  datatype Terms = Terms(semester: int, rooms: int, labs: int)

  /** Semester between 1 and 10, rooms from 1 and labs from 0, the last two
      with no maximum, read in that order. */
  function TermsOf(vs: seq<Option<int>>): Option<(Terms, seq<Option<int>>)>
  {
    var (s, r1) := Asked(vs, 1, Some(10));
    var (r, r2) := Asked(r1, 1, None);
    var (l, r3) := Asked(r2, 0, None);
    if s.Some? && r.Some? && l.Some? then Some((Terms(s.value, r.value, l.value), r3)) else None
  }

  /** The semester read is always in its range, and the terms leave a
      suffix of the input. */
  lemma TermsRanges(vs: seq<Option<int>>)
    ensures TermsOf(vs).Some? ==> 1 <= TermsOf(vs).value.0.semester <= 10 && Suffix(TermsOf(vs).value.1, vs)
  {
    var (s, r1) := Asked(vs, 1, Some(10));
    var (r, r2) := Asked(r1, 1, None);
    AskedFirstAnswer(vs, 1, Some(10));
    AskedFirstAnswer(r1, 1, None);
    AskedFirstAnswer(r2, 0, None);
    if s.Some? {
      AcceptsRange(s.value, 1, Some(10));
    }
  }

  /** The three `solicitar_numero` calls of a request; `None` when the input
      ends before the third answer. */
  method AskTerms(input: seq<string>) returns (t: Option<Terms>, rest: seq<string>)
    ensures Suffix(rest, input)
    ensures TermsOf(Parsed(input)).None? ==> t.None?
    ensures TermsOf(Parsed(input)).Some? ==> t == Some(TermsOf(Parsed(input)).value.0) && Parsed(rest) == TermsOf(Parsed(input)).value.1
  {
    var s, r1 := AskNumber(input, 1, Some(10));
    var r, r2 := AskNumber(r1, 1, None);
    var l, r3 := AskNumber(r2, 0, None);
    rest := r3;
    assert Suffix(rest, input) by {
      assert input[|input| - |r1|..][|r1| - |r2|..] == input[|input| - |r2|..];
      assert input[|input| - |r2|..][|r2| - |r3|..] == input[|input| - |r3|..];
    }
    if s.Some? && r.Some? && l.Some? {
      return Some(Terms(s.value, r.value, l.value)), rest;
    }
    return None, rest;
  }

  // ---------------------------------------------------------------------------
  // Choosing faculties
  // ---------------------------------------------------------------------------

  /** A chosen faculty with its programs. */
  type Choice = (string, seq<string>)

  /** What one comma-separated token picks: the faculty at position
      `int(token) - 1` with Python's indexing, or nothing when the token does
      not parse or the position is out of range. */
  function Pick(faculties: Faculty.Faculties, token: string): (r: seq<Choice>)
    ensures |r| <= 1
  {
    match ParseInt(token)
    case None => []
    case Some(k) =>
      match PyIndex(|faculties|, k - 1)
      case None => []
      case Some(i) => [(faculties[i].key, faculties[i].val)]
  }

  /** The picks of a list of tokens, in token order. */
  function Picks(faculties: Faculty.Faculties, tokens: seq<string>): seq<Choice>
    decreases |tokens|
  {
    if tokens == [] then [] else Picks(faculties, tokens[..|tokens| - 1]) + Pick(faculties, tokens[|tokens| - 1])
  }

  /** Picking keeps token order and duplicates: the picks of two lists one
      after the other are the picks of the first, then those of the second. */
  lemma {:induction false} PicksAppend(faculties: Faculty.Faculties, a: seq<string>, b: seq<string>)
    ensures Picks(faculties, a + b) == Picks(faculties, a) + Picks(faculties, b)
    decreases |b|
  {
    if b != [] {
      var b' := b[..|b| - 1];
      assert (a + b)[..|a + b| - 1] == a + b';
      assert (a + b)[|a + b| - 1] == b[|b| - 1];
      assert Picks(faculties, a + b) == Picks(faculties, a + b') + Pick(faculties, b[|b| - 1]);
      assert Picks(faculties, b) == Picks(faculties, b') + Pick(faculties, b[|b| - 1]);
      PicksAppend(faculties, a, b');
    } else {
      assert a + b == a;
    }
  }

  /** Every pick is a faculty of the table with its programs; `"0"` picks the
      last faculty. */
  lemma PickFromTable(faculties: Faculty.Faculties, token: string)
    requires DistinctKeys(faculties)
    ensures forall c :: c in Pick(faculties, token) ==> Get(faculties, c.0) == Some(c.1)
    ensures ParseInt(token) == Some(0) && faculties != [] ==>
      Pick(faculties, token) == [(faculties[|faculties| - 1].key, faculties[|faculties| - 1].val)]
  {
    match ParseInt(token)
    case None =>
    case Some(k) =>
      match PyIndex(|faculties|, k - 1)
      case None =>
      case Some(i) => UniqueIndex(faculties, i, faculties[i].key);
  }

  /** `seleccionar_facultades_y_programas` after the prompt: an empty table
      gives no choice; otherwise each token of the line is picked in turn. */
  method Select(faculties: Faculty.Faculties, line: string) returns (selected: seq<Choice>)
    ensures faculties == [] ==> selected == []
    ensures faculties != [] ==> selected == Picks(faculties, Split(line, ","))
  {
    if faculties == [] {
      return [];
    }
    var indices := Split(line, ",");
    selected := [];
    var i := 0;
    while i < |indices|
      invariant 0 <= i <= |indices|
      invariant selected == Picks(faculties, indices[..i])
    {
      assert indices[..i + 1][..i] == indices[..i];
      var picked := Pick(faculties, indices[i]);
      selected := selected + picked;
      i := i + 1;
    }
    assert indices[..i] == indices;
  }

  // ---------------------------------------------------------------------------
  // Building requests
  // ---------------------------------------------------------------------------

  /** `crear_solicitud`. */
  function NewRequest(faculty: string, program: string, t: Terms): Json
  {
    JObj([Entry("facultad", JStr(faculty)), Entry("programa", JStr(program)),
          Entry("semestre", JInt(t.semester)), Entry("salones", JInt(t.rooms)),
          Entry("laboratorios", JInt(t.labs)), Entry("capacidad_min", JInt(30))])
  }

  /** A request holds exactly its six fields, with a minimum capacity of 30,
      and the allocation server reads every field back as built, so it never
      reports one missing. */
  lemma NewRequestReadsBack(faculty: string, program: string, t: Terms)
    ensures var j := NewRequest(faculty, program, t);
      && Keys(j.members) == ["facultad", "programa", "semestre", "salones", "laboratorios", "capacidad_min"]
      && Get(j.members, "capacidad_min") == Some(JInt(30))
      && Rooms.RequestOf(j) == Rooms.Request(Some(faculty), Some(program), Some(Rooms.Number(t.rooms)), Some(Rooms.Number(t.labs)), Some(JInt(t.semester)))
      && Rooms.MissingField(Rooms.RequestOf(j)) == None
  {
    NewRequestGets(faculty, program, t);
    RequestReads(NewRequest(faculty, program, t), faculty, program, JInt(t.semester), t.rooms, t.labs);
  }

  /** An object whose four required fields have the right types is read
      with nothing missing. */
  lemma RequestReads(j: Json, faculty: string, program: string, term: Json, rooms: int, labs: int)
    requires j.JObj?
    requires Get(j.members, "facultad") == Some(JStr(faculty)) && Get(j.members, "programa") == Some(JStr(program))
    requires Get(j.members, "semestre") == Some(term)
    requires Get(j.members, "salones") == Some(JInt(rooms)) && Get(j.members, "laboratorios") == Some(JInt(labs))
    ensures Rooms.RequestOf(j) == Rooms.Request(Some(faculty), Some(program), Some(Rooms.Number(rooms)), Some(Rooms.Number(labs)), Some(term))
    ensures Rooms.MissingField(Rooms.RequestOf(j)) == None
  {
  }

  /** The six fields of a request, looked up by name. */
  lemma NewRequestGets(faculty: string, program: string, t: Terms)
    ensures var m := NewRequest(faculty, program, t).members;
      && Keys(m) == ["facultad", "programa", "semestre", "salones", "laboratorios", "capacidad_min"]
      && Get(m, "facultad") == Some(JStr(faculty))
      && Get(m, "programa") == Some(JStr(program))
      && Get(m, "semestre") == Some(JInt(t.semester))
      && Get(m, "salones") == Some(JInt(t.rooms))
      && Get(m, "laboratorios") == Some(JInt(t.labs))
      && Get(m, "capacidad_min") == Some(JInt(30))
  {
    var m := NewRequest(faculty, program, t).members;
    assert Keys(m) == ["facultad", "programa", "semestre", "salones", "laboratorios", "capacidad_min"];
    assert DistinctKeys(m);
    UniqueIndex(m, 0, "facultad");
    UniqueIndex(m, 1, "programa");
    UniqueIndex(m, 2, "semestre");
    UniqueIndex(m, 3, "salones");
    UniqueIndex(m, 4, "laboratorios");
    UniqueIndex(m, 5, "capacidad_min");
  }

  /** A chosen faculty's (faculty, program) pairs. */
  function ProgramsOf(c: Choice): (r: seq<(string, string)>)
    ensures |r| == |c.1| && forall j :: 0 <= j < |c.1| ==> r[j] == (c.0, c.1[j])
  {
    seq(|c.1|, j requires 0 <= j < |c.1| => (c.0, c.1[j]))
  }

  /** Every (faculty, program) pair of a selection, faculty by faculty and
      each faculty's programs in order. */
  function Pairs(selected: seq<Choice>): seq<(string, string)>
    decreases |selected|
  {
    if selected == [] then [] else ProgramsOf(selected[0]) + Pairs(selected[1..])
  }

  /** The number of programs of a selection. */
  function ProgramCount(selected: seq<Choice>): nat
    decreases |selected|
  {
    if selected == [] then 0 else |selected[0].1| + ProgramCount(selected[1..])
  }

  lemma {:induction false} PairsAppend(a: seq<Choice>, b: seq<Choice>)
    ensures Pairs(a + b) == Pairs(a) + Pairs(b)
    decreases |a|
  {
    if a != [] {
      assert (a + b)[1..] == a[1..] + b;
      assert (a + b)[0] == a[0];
      assert Pairs(a + b) == ProgramsOf(a[0]) + Pairs(a[1..] + b);
      assert Pairs(a) == ProgramsOf(a[0]) + Pairs(a[1..]);
      PairsAppend(a[1..], b);
    } else {
      assert a + b == b;
    }
  }

  /** There are as many pairs as programs in the selection. */
  lemma {:induction false} PairsCount(selected: seq<Choice>)
    ensures |Pairs(selected)| == ProgramCount(selected)
    decreases |selected|
  {
    if selected != [] {
      PairsCount(selected[1..]);
    }
  }

  /** The requests for a list of pairs, all with the same terms. */
  function Requests(pairs: seq<(string, string)>, t: Terms): (r: seq<Json>)
    ensures |r| == |pairs| && forall k :: 0 <= k < |pairs| ==> r[k] == NewRequest(pairs[k].0, pairs[k].1, t)
  {
    seq(|pairs|, k requires 0 <= k < |pairs| => NewRequest(pairs[k].0, pairs[k].1, t))
  }

  lemma RequestsAppend(a: seq<(string, string)>, b: seq<(string, string)>, t: Terms)
    ensures Requests(a + b, t) == Requests(a, t) + Requests(b, t)
  {
    assert forall k :: 0 <= k < |a + b| ==> (a + b)[k] == if k < |a| then a[k] else b[k - |a|];
  }

  /** What a request-building step yields: the requests and the parsed
      input left, or `None` when the input ended first. */
  type Built = Option<(seq<Json>, seq<Option<int>>)>

  /** The outcome of `procesar_solicitud_colectiva`: the terms are read once
      and shared by one request per pair. */
  function CollectiveOf(selected: seq<Choice>, vs: seq<Option<int>>): Built
  {
    match TermsOf(vs)
    case None => None
    case Some((t, left)) => Some((Requests(Pairs(selected), t), left))
  }

  /** A collective request makes as many requests as there are programs. */
  lemma CollectiveCount(selected: seq<Choice>, vs: seq<Option<int>>)
    ensures CollectiveOf(selected, vs).Some? ==> |CollectiveOf(selected, vs).value.0| == ProgramCount(selected)
  {
    PairsCount(selected);
  }

  /** `procesar_solicitud_colectiva`. */
  method Collective(selected: seq<Choice>, input: seq<string>) returns (requests: Option<seq<Json>>, rest: seq<string>)
    ensures Suffix(rest, input)
    ensures CollectiveOf(selected, Parsed(input)).None? ==> requests.None?
    ensures CollectiveOf(selected, Parsed(input)).Some? ==>
      requests == Some(CollectiveOf(selected, Parsed(input)).value.0) && Parsed(rest) == CollectiveOf(selected, Parsed(input)).value.1
  {
    var asked;
    asked, rest := AskTerms(input);
    if asked.None? {
      return None, rest;
    }
    var t := asked.value;
    var built: seq<Json> := [];
    var i := 0;
    while i < |selected|
      invariant 0 <= i <= |selected|
      invariant built == Requests(Pairs(selected[..i]), t)
    {
      var (faculty, programs) := selected[i];
      var j := 0;
      while j < |programs|
        invariant 0 <= j <= |programs|
        invariant built == Requests(Pairs(selected[..i]) + ProgramsOf(selected[i])[..j], t)
      {
        TakeOneMore(Pairs(selected[..i]), ProgramsOf(selected[i]), j);
        RequestsAppend(Pairs(selected[..i]) + ProgramsOf(selected[i])[..j], [(faculty, programs[j])], t);
        built := built + [NewRequest(faculty, programs[j], t)];
        j := j + 1;
      }
      assert ProgramsOf(selected[i])[..j] == ProgramsOf(selected[i]);
      PairsSnoc(selected, i);
      i := i + 1;
    }
    assert selected[..i] == selected;
    requests := Some(built);
  }

  lemma TakeOneMore<T>(p: seq<T>, x: seq<T>, j: nat)
    requires j < |x|
    ensures p + x[..j + 1] == (p + x[..j]) + [x[j]]
  {
    assert x[..j + 1] == x[..j] + [x[j]];
  }

  lemma PairsSnoc(selected: seq<Choice>, i: nat)
    requires i < |selected|
    ensures Pairs(selected[..i + 1]) == Pairs(selected[..i]) + ProgramsOf(selected[i])
  {
    assert selected[..i + 1] == selected[..i] + [selected[i]];
    PairsAppend(selected[..i], [selected[i]]);
    assert Pairs([selected[i]]) == ProgramsOf(selected[i]) + Pairs([]);
  }

  /** `prefix` put in front of the requests of `b`. */
  function Prepend(prefix: seq<Json>, b: Built): Built
  {
    if b.None? then None else Some((prefix + b.value.0, b.value.1))
  }

  /** The outcome of `procesar_solicitud_individual`: the terms are read
      anew for every pair, in pair order. */
  function IndividualOf(pairs: seq<(string, string)>, vs: seq<Option<int>>): Built
    decreases |pairs|
  {
    if pairs == [] then Some(([], vs))
    else
      match TermsOf(vs)
      case None => None
      case Some((t, left)) => Prepend([NewRequest(pairs[0].0, pairs[0].1, t)], IndividualOf(pairs[1..], left))
  }

  /** `j` is the request of `pair` for some terms. */
  ghost predicate RequestFor(j: Json, pair: (string, string))
  {
    exists t :: j == NewRequest(pair.0, pair.1, t)
  }

  /** An individual request that completes makes one request per pair, in
      pair order, each with the terms read for it. */
  lemma {:induction false} IndividualCount(pairs: seq<(string, string)>, vs: seq<Option<int>>)
    ensures IndividualOf(pairs, vs).Some? ==>
      var r := IndividualOf(pairs, vs).value.0;
      |r| == |pairs| && forall k :: 0 <= k < |pairs| ==> RequestFor(r[k], pairs[k])
    decreases |pairs|
  {
    if pairs != [] {
      var terms := TermsOf(vs);
      if terms.Some? {
        var t, left := terms.value.0, terms.value.1;
        var tail := IndividualOf(pairs[1..], left);
        assert IndividualOf(pairs, vs) == Prepend([NewRequest(pairs[0].0, pairs[0].1, t)], tail);
        IndividualCount(pairs[1..], left);
        if tail.Some? {
          var r := IndividualOf(pairs, vs).value.0;
          assert r == [NewRequest(pairs[0].0, pairs[0].1, t)] + tail.value.0;
          assert |tail.value.0| == |pairs| - 1;
          forall k | 0 <= k < |pairs|
            ensures RequestFor(r[k], pairs[k])
          {
            if k == 0 {
              assert r[0] == NewRequest(pairs[0].0, pairs[0].1, t);
            } else {
              assert r[k] == tail.value.0[k - 1] && pairs[k] == pairs[1..][k - 1];
              assert RequestFor(tail.value.0[k - 1], pairs[1..][k - 1]);
            }
          }
        }
      }
    }
  }

  lemma DropFirst<T>(x: seq<T>, j: nat, y: seq<T>)
    requires j < |x|
    ensures (x[j..] + y)[0] == x[j] && (x[j..] + y)[1..] == x[j + 1..] + y
  {
    assert x[j..] == [x[j]] + x[j + 1..];
  }

  /** One pair of the individual loop: its request follows those built so
      far, and the next pairs read from the input its terms left. */
  lemma IndividualStep(built: seq<Json>, pairs: seq<(string, string)>, vs: seq<Option<int>>, t: Terms, left: seq<Option<int>>)
    requires pairs != [] && TermsOf(vs) == Some((t, left))
    ensures Prepend(built, IndividualOf(pairs, vs))
      == Prepend(built + [NewRequest(pairs[0].0, pairs[0].1, t)], IndividualOf(pairs[1..], left))
  {
    var later := IndividualOf(pairs[1..], left);
    if later.Some? {
      assert built + ([NewRequest(pairs[0].0, pairs[0].1, t)] + later.value.0)
        == (built + [NewRequest(pairs[0].0, pairs[0].1, t)]) + later.value.0;
    }
  }

  /** `procesar_solicitud_individual`. */
  method Individual(selected: seq<Choice>, input: seq<string>) returns (requests: Option<seq<Json>>, rest: seq<string>)
    ensures Suffix(rest, input)
    ensures IndividualOf(Pairs(selected), Parsed(input)).None? ==> requests.None?
    ensures IndividualOf(Pairs(selected), Parsed(input)).Some? ==>
      requests == Some(IndividualOf(Pairs(selected), Parsed(input)).value.0)
      && Parsed(rest) == IndividualOf(Pairs(selected), Parsed(input)).value.1
  {
    var goal := IndividualOf(Pairs(selected), Parsed(input));
    var built: seq<Json> := [];
    rest := input;
    var i := 0;
    assert selected[0..] == selected;
    assert Prepend([], goal) == goal by {
      if goal.Some? {
        assert [] + goal.value.0 == goal.value.0;
      }
    }
    while i < |selected|
      invariant 0 <= i <= |selected| && Suffix(rest, input)
      invariant goal == Prepend(built, IndividualOf(Pairs(selected[i..]), Parsed(rest)))
    {
      var (faculty, programs) := selected[i];
      assert Pairs(selected[i..]) == ProgramsOf(selected[i]) + Pairs(selected[i + 1..]) by {
        assert selected[i..][1..] == selected[i + 1..];
      }
      assert ProgramsOf(selected[i])[0..] == ProgramsOf(selected[i]);
      var j := 0;
      while j < |programs|
        invariant 0 <= j <= |programs| && Suffix(rest, input)
        invariant goal == Prepend(built, IndividualOf(ProgramsOf(selected[i])[j..] + Pairs(selected[i + 1..]), Parsed(rest)))
      {
        var pairs := ProgramsOf(selected[i])[j..] + Pairs(selected[i + 1..]);
        DropFirst(ProgramsOf(selected[i]), j, Pairs(selected[i + 1..]));
        var t, left := AskTerms(rest);
        assert Suffix(left, input) by {
          assert input[|input| - |rest|..][|rest| - |left|..] == input[|input| - |left|..];
        }
        if t.None? {
          assert goal == None;
          return None, left;
        }
        IndividualStep(built, pairs, Parsed(rest), t.value, Parsed(left));
        built := built + [NewRequest(faculty, programs[j], t.value)];
        rest := left;
        j := j + 1;
      }
      assert ProgramsOf(selected[i])[j..] + Pairs(selected[i + 1..]) == Pairs(selected[i + 1..]);
      i := i + 1;
    }
    assert Pairs(selected[i..]) == [];
    assert built + [] == built;
    requests := Some(built);
  }

  // ---------------------------------------------------------------------------
  // Sending
  // ---------------------------------------------------------------------------

  lemma MulAtLeast(a: int, n: int)
    requires a >= 1 && n > 0
    ensures a * n >= n
  {
  }

  /** Euclidean division is unique. */
  lemma ModUnique(x: int, n: int, q: int, r: int)
    requires n > 0 && 0 <= r < n && x == q * n + r
    ensures x % n == r
  {
    var q', r' := x / n, x % n;
    assert (q - q') * n == r' - r;
    if q - q' >= 1 {
      MulAtLeast(q - q', n);
    } else if q' - q >= 1 {
      MulAtLeast(q' - q, n);
    }
  }

  /** One step of the rotation keeps the index at the count modulo the
      number of sockets. */
  lemma ModStep(i: nat, n: nat)
    requires n > 0
    ensures (i % n + 1) % n == (i + 1) % n
  {
    var q, r := i / n, i % n;
    if r + 1 < n {
      ModUnique(i + 1, n, q, r + 1);
      ModUnique(r + 1, n, 0, r + 1);
    } else {
      assert i + 1 == (q + 1) * n;
      ModUnique(i + 1, n, q + 1, 0);
      ModUnique(r + 1, n, 1, 0);
    }
  }

  /** `enviar_solicitudes`: the socket each request goes out on.  With
      sockets the k-th request (from 0) uses socket `k mod n`; with none,
      `sockets[0]` raises `IndexError` at the first request, which is
      `None` here. */
  method SendAll(requests: seq<Json>, sockets: nat) returns (targets: Option<seq<nat>>)
    ensures sockets == 0 ==> targets == (if requests == [] then Some([]) else None)
    ensures sockets > 0 ==>
      && targets.Some? && |targets.value| == |requests|
      && forall k :: 0 <= k < |requests| ==> targets.value[k] == k % sockets
  {
    var used: seq<nat> := [];
    var index: nat := 0;
    var k := 0;
    while k < |requests|
      invariant 0 <= k <= |requests| && |used| == k
      invariant sockets > 0 ==> index == k % sockets && forall m :: 0 <= m < k ==> used[m] == m % sockets
      invariant sockets == 0 ==> k == 0
    {
      if index >= sockets {
        return None;
      }
      used := used + [index];
      ModStep(k, sockets);
      index := (index + 1) % sockets;
      k := k + 1;
    }
    return Some(used);
  }
}
