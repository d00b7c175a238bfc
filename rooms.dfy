/**
 * The central allocation server (`ServidorDTI`): a table of rooms keyed by
 * id, kept in insertion order, that requests of the faculties consume
 * greedily.  Classrooms come first, then laboratories, and when laboratories
 * run short, still-free classrooms are converted into mobile labs.  A short
 * supply never rejects a request: the lists returned are simply shorter.
 */
module Rooms {
  import opened Dicts
  import opened PyText
  import opened Wire

  // ---------------------------------------------------------------------------
  // Data model
  // ---------------------------------------------------------------------------

  datatype RoomKind = Salon | Lab | Mobile

  datatype RoomStatus = Available | Assigned

  /** One room (`Aula`); the dates are the opaque timestamp texts. */
  datatype Room = Room(
    id: string,
    kind: RoomKind,
    status: RoomStatus,
    capacity: int,
    faculty: string,
    program: string,
    requestedAt: string,
    assignedAt: string)

  /** `ServidorDTI.aulas`: id-keyed, in insertion order. */
  type Table = seq<Entry<string, Room>>

  /** The text each kind is stored and transmitted as. */
  function KindValue(k: RoomKind): string
  {
    match k
    case Salon => "salón"
    case Lab => "laboratorio"
    case Mobile => "aula móvil"
  }

  /** `TipoAula(s)`: the kind whose text is `s`; `None` where Python raises
      `ValueError`. */
  function KindOf(s: string): (r: Option<RoomKind>)
    ensures forall k :: r == Some(k) <==> KindValue(k) == s
  {
    if s == "salón" then Some(Salon)
    else if s == "laboratorio" then Some(Lab)
    else if s == "aula móvil" then Some(Mobile)
    else None
  }

  function StatusValue(s: RoomStatus): string
  {
    match s
    case Available => "disponible"
    case Assigned => "asignada"
  }

  /** `EstadoAula(s)`; `None` where Python raises `ValueError`. */
  function StatusOf(s: string): (r: Option<RoomStatus>)
    ensures forall st :: r == Some(st) <==> StatusValue(st) == s
  {
    if s == "disponible" then Some(Available)
    else if s == "asignada" then Some(Assigned)
    else None
  }

  /** What every table built by this system satisfies: each key occurs once
      and is the id of the room stored under it. */
  predicate WellFormed(t: Table)
  {
    DistinctKeys(t) && forall i :: 0 <= i < |t| ==> t[i].key == t[i].val.id
  }

  /** The table that assigning `aulas[row.id] = row` for each row in order
      builds, starting from an empty dict. */
  function FromRows(rows: seq<Room>): Table
    decreases |rows|
  {
    if |rows| == 0 then [] else Put(FromRows(rows[..|rows| - 1]), rows[|rows| - 1].id, rows[|rows| - 1])
  }

  lemma {:induction false} FromRowsWellFormed(rows: seq<Room>)
    ensures WellFormed(FromRows(rows))
    decreases |rows|
  {
    if |rows| > 0 {
      var t := FromRows(rows[..|rows| - 1]);
      var r := rows[|rows| - 1];
      FromRowsWellFormed(rows[..|rows| - 1]);
      PutSpec(t, r.id, r);
    }
  }

  /** Writing a table out row by row and loading it again gives the same
      table. */
  lemma {:induction false} FromRowsValues(t: Table)
    requires WellFormed(t)
    ensures FromRows(Values(t)) == t
    decreases |t|
  {
    if |t| > 0 {
      var init := t[..|t| - 1];
      assert WellFormed(init);
      assert Values(t)[..|t| - 1] == Values(init);
      FromRowsValues(init);
      var last := t[|t| - 1];
      assert !HasKey(init, last.key) by {
        forall j | 0 <= j < |init| ensures init[j].key != last.key {
          assert t[j].key != t[|t| - 1].key;
        }
      }
      assert t == init + [Entry(last.val.id, last.val)];
    }
  }

  // ---------------------------------------------------------------------------
  // Positions that pass a filter, in table order
  // ---------------------------------------------------------------------------

  /** The room tests the allocation loops and comprehensions apply. */
  datatype Filter = FreeOfKind(kind: RoomKind) | FreeSalonOutside(ids: seq<string>)

  predicate Matches(f: Filter, r: Room)
  {
    match f
    case FreeOfKind(k) => r.kind == k && r.status == Available
    case FreeSalonOutside(ids) => r.kind == Salon && r.status == Available && r.id !in ids
  }

  predicate Increasing(ps: seq<nat>)
  {
    forall a, b :: 0 <= a < b < |ps| ==> ps[a] < ps[b]
  }

  /** The positions among the first `n` entries whose room passes `f`, in
      order: what `[a for a in aulas.values() if ...]` selects. */
  function Positions(t: Table, f: Filter, n: nat): (ps: seq<nat>)
    requires n <= |t|
    decreases n
  {
    if n == 0 then []
    else Positions(t, f, n - 1) + (if Matches(f, t[n - 1].val) then [n - 1] else [])
  }

  /** The positions are increasing, each passes the filter, and every
      passing position among the first `n` is one of them. */
  lemma {:induction false} PositionsFacts(t: Table, f: Filter, n: nat)
    requires n <= |t|
    ensures var ps := Positions(t, f, n);
      && Increasing(ps)
      && (forall k :: 0 <= k < |ps| ==> ps[k] < n && Matches(f, t[ps[k]].val))
      && (forall i :: 0 <= i < n && Matches(f, t[i].val) ==> i in ps)
    decreases n
  {
    if n > 0 {
      PositionsFacts(t, f, n - 1);
      var ps := Positions(t, f, n - 1);
      assert Positions(t, f, n) == ps + (if Matches(f, t[n - 1].val) then [n - 1] else []);
    }
  }

  /** Two increasing sequences with the same elements are equal. */
  lemma {:induction false} IncreasingUnique(a: seq<nat>, b: seq<nat>)
    requires Increasing(a) && Increasing(b)
    requires forall x :: x in a <==> x in b
    ensures a == b
    decreases |a|
  {
    if |a| > 0 || |b| > 0 {
      assert |a| > 0 ==> a[0] in b;
      assert |b| > 0 ==> b[0] in a;
      assert a[0] == b[0];
      forall x ensures x in a[1..] <==> x in b[1..] {
        if x in a[1..] {
          var i :| 1 <= i < |a| && a[i] == x;
          assert x in b && x != b[0];
        }
        if x in b[1..] {
          var i :| 1 <= i < |b| && b[i] == x;
          assert x in a && x != a[0];
        }
      }
      IncreasingUnique(a[1..], b[1..]);
      assert a == [a[0]] + a[1..] && b == [b[0]] + b[1..];
    }
  }

  /** The positions of a filter are the only increasing list of exactly the
      passing positions. */
  lemma PositionsCharacterized(t: Table, f: Filter, ps: seq<nat>)
    requires Increasing(ps)
    requires forall x: nat :: x in ps <==> x < |t| && Matches(f, t[x].val)
    ensures ps == Positions(t, f, |t|)
  {
    PositionsFacts(t, f, |t|);
    IncreasingUnique(ps, Positions(t, f, |t|));
  }

  /** `len(picked) < n` as a loop guard: the first `n` of `xs`, none when `n`
      is not positive. */
  function Head<T>(xs: seq<T>, n: int): (r: seq<T>)
    ensures |r| == if n <= 0 then 0 else if n < |xs| then n else |xs|
    ensures r == xs[..|r|]
  {
    if n <= 0 then [] else if n < |xs| then xs[..n] else xs
  }

  lemma HeadSnoc<T>(xs: seq<T>, x: T, n: int)
    ensures Head(xs + [x], n) == if |Head(xs, n)| < n then Head(xs, n) + [x] else Head(xs, n)
  {
    if 0 < n && n <= |xs| {
      assert (xs + [x])[..n] == xs[..n];
    }
  }

  lemma PrefixIncreasing(ps: seq<nat>, k: nat)
    requires Increasing(ps) && k <= |ps|
    ensures Increasing(ps[..k]) && Increasing(ps[k..])
  {
  }

  // ---------------------------------------------------------------------------
  // The allocation, stage by stage
  // ---------------------------------------------------------------------------

  /** A room taken by a request: assigned to the faculty and programme, both
      dates set to the request's timestamp, and turned into a mobile lab when
      it is a converted classroom. */
  function Take(r: Room, asMobile: bool, faculty: string, program: string, now: string): (r': Room)
    ensures r'.id == r.id && r'.capacity == r.capacity && r'.status == Assigned
    ensures r'.faculty == faculty && r'.program == program && r'.requestedAt == now && r'.assignedAt == now
    ensures r'.kind == if asMobile then Mobile else r.kind
  {
    r.(kind := if asMobile then Mobile else r.kind, status := Assigned, faculty := faculty,
       program := program, requestedAt := now, assignedAt := now)
  }

  /** The table with the rooms at positions `ps` taken. */
  function TakeAt(t: Table, ps: seq<nat>, asMobile: bool, faculty: string, program: string, now: string): (t': Table)
    ensures |t'| == |t|
    ensures forall i :: 0 <= i < |t| ==> t'[i] == if i in ps then Entry(t[i].key, Take(t[i].val, asMobile, faculty, program, now)) else t[i]
  {
    seq(|t|, i requires 0 <= i < |t| =>
      if i in ps then Entry(t[i].key, Take(t[i].val, asMobile, faculty, program, now)) else t[i])
  }

  /** The ids of the rooms at positions `ps` (positions past the end read as
      no id). */
  function Ids(t: Table, ps: seq<nat>): (ids: seq<string>)
    ensures |ids| == |ps| && forall k :: 0 <= k < |ps| && ps[k] < |t| ==> ids[k] == t[ps[k]].val.id
  {
    seq(|ps|, k requires 0 <= k < |ps| => if ps[k] < |t| then t[ps[k]].val.id else "")
  }

  /** Taking rooms keeps every key and every id, so a well-formed table stays
      well formed. */
  lemma TakeAtKeepsKeys(t: Table, ps: seq<nat>, asMobile: bool, faculty: string, program: string, now: string)
    ensures Keys(TakeAt(t, ps, asMobile, faculty, program, now)) == Keys(t)
    ensures WellFormed(t) ==> WellFormed(TakeAt(t, ps, asMobile, faculty, program, now))
  {
    var t' := TakeAt(t, ps, asMobile, faculty, program, now);
    assert forall i :: 0 <= i < |t| ==> t'[i].key == t[i].key && t'[i].val.id == t[i].val.id;
    assert Keys(t') == Keys(t);
  }

  /** The positions each stage took, and the table after all of them. */
  datatype Outcome = Outcome(table: Table, rooms: seq<nat>, labs: seq<nat>, mobiles: seq<nat>)

  /** The allocation as the server carries it out on table `t`: `n` classrooms
      requested, `m` laboratories, all taken for `faculty`/`program` at
      `now`. */
  function Allocation(t: Table, faculty: string, program: string, n: int, m: int, now: string): Outcome
  {
    var rp := Head(Positions(t, FreeOfKind(Salon), |t|), n);
    var t1 := TakeAt(t, rp, false, faculty, program, now);
    var lp := PyTake(Positions(t1, FreeOfKind(Lab), |t1|), m);
    var t2 := TakeAt(t1, lp, false, faculty, program, now);
    var mp := if |lp| < m then PyTake(Positions(t2, FreeSalonOutside(Ids(t, rp)), |t2|), m - |lp|) else [];
    var t3 := TakeAt(t2, mp, true, faculty, program, now);
    Outcome(t3, rp, lp, mp)
  }

  /** The stages of `Allocation` with the intermediate tables named: `t1`
      after the classrooms, `t2` after the laboratories. */
  lemma Stages(t: Table, faculty: string, program: string, n: int, m: int, now: string) returns (t1: Table, t2: Table)
    ensures var o := Allocation(t, faculty, program, n, m, now);
      && o.rooms == Head(Positions(t, FreeOfKind(Salon), |t|), n)
      && t1 == TakeAt(t, o.rooms, false, faculty, program, now)
      && o.labs == PyTake(Positions(t1, FreeOfKind(Lab), |t1|), m)
      && t2 == TakeAt(t1, o.labs, false, faculty, program, now)
      && o.mobiles == (if |o.labs| < m then PyTake(Positions(t2, FreeSalonOutside(Ids(t, o.rooms)), |t2|), m - |o.labs|) else [])
      && o.table == TakeAt(t2, o.mobiles, true, faculty, program, now)
  {
    t1 := TakeAt(t, Head(Positions(t, FreeOfKind(Salon), |t|), n), false, faculty, program, now);
    t2 := TakeAt(t1, PyTake(Positions(t1, FreeOfKind(Lab), |t1|), m), false, faculty, program, now);
  }

  /** A prefix of the passing positions is increasing and every position in it
      passes. */
  lemma PrefixPasses(t: Table, f: Filter, r: seq<nat>)
    requires |r| <= |Positions(t, f, |t|)| && r == Positions(t, f, |t|)[..|r|]
    ensures Increasing(r)
    ensures forall p :: p in r ==> p < |t| && Matches(f, t[p].val)
    ensures forall k :: 0 <= k < |r| ==> r[k] < |t|
  {
    var xs := Positions(t, f, |t|);
    PositionsFacts(t, f, |t|);
    forall p | p in r ensures p < |t| && Matches(f, t[p].val) {
      var k :| 0 <= k < |r| && r[k] == p;
      assert xs[k] == p;
    }
  }

  /** A room still free after some rooms were taken was not among them. */
  lemma StillFree(t: Table, ps: seq<nat>, asMobile: bool, faculty: string, program: string, now: string, p: nat)
    requires p < |t| && TakeAt(t, ps, asMobile, faculty, program, now)[p].val.status == Available
    ensures p !in ps && TakeAt(t, ps, asMobile, faculty, program, now)[p] == t[p]
  {
  }

  /** The facts of `AllocationTaken`, over the stages given by name. */
  lemma TakenFacts(t: Table, t1: Table, t2: Table, rp: seq<nat>, lp: seq<nat>, mp: seq<nat>,
                   faculty: string, program: string, now: string)
    requires t1 == TakeAt(t, rp, false, faculty, program, now) && t2 == TakeAt(t1, lp, false, faculty, program, now)
    requires forall p :: p in rp ==> p < |t| && t[p].val.kind == Salon && t[p].val.status == Available
    requires forall p :: p in lp ==> p < |t1| && t1[p].val.kind == Lab && t1[p].val.status == Available
    requires forall p :: p in mp ==> p < |t2| && t2[p].val.kind == Salon && t2[p].val.status == Available
    ensures forall p :: p in lp ==> p < |t| && t[p].val.kind == Lab && t[p].val.status == Available && p !in rp
    ensures forall p :: p in mp ==>
      p < |t| && t[p].val.kind == Salon && t[p].val.status == Available && p !in rp && p !in lp
  {
    forall p | p in lp ensures p < |t| && t1[p] == t[p] && p !in rp {
      StillFree(t, rp, false, faculty, program, now, p);
    }
    forall p | p in mp ensures p < |t| && t2[p] == t[p] && p !in rp && p !in lp {
      StillFree(t1, lp, false, faculty, program, now, p);
      StillFree(t, rp, false, faculty, program, now, p);
    }
  }

  /** Every room the allocation takes was free and of the kind its stage
      looks for, and no room is taken by two stages. */
  lemma AllocationTaken(t: Table, faculty: string, program: string, n: int, m: int, now: string)
    ensures var o := Allocation(t, faculty, program, n, m, now);
      && Increasing(o.rooms) && Increasing(o.labs) && Increasing(o.mobiles)
      && (forall p :: p in o.rooms ==> p < |t| && t[p].val.kind == Salon && t[p].val.status == Available)
      && (forall p :: p in o.labs ==> p < |t| && t[p].val.kind == Lab && t[p].val.status == Available && p !in o.rooms)
      && (forall p :: p in o.mobiles ==>
            p < |t| && t[p].val.kind == Salon && t[p].val.status == Available && p !in o.rooms && p !in o.labs)
  {
    var o := Allocation(t, faculty, program, n, m, now);
    var t1, t2 := Stages(t, faculty, program, n, m, now);
    PrefixPasses(t, FreeOfKind(Salon), o.rooms);
    PrefixPasses(t1, FreeOfKind(Lab), o.labs);
    if |o.labs| < m {
      PrefixPasses(t2, FreeSalonOutside(Ids(t, o.rooms)), o.mobiles);
    }
    TakenFacts(t, t1, t2, o.rooms, o.labs, o.mobiles, faculty, program, now);
  }

  /** What the allocation does to the table: the rooms the stages took are
      assigned (converted classrooms become mobile labs), every other entry
      is unchanged, and keys, their order and well-formedness are kept. */
  lemma AllocationEffect(t: Table, faculty: string, program: string, n: int, m: int, now: string)
    ensures var o := Allocation(t, faculty, program, n, m, now);
      && |o.table| == |t|
      && (forall i :: 0 <= i < |t| ==>
            o.table[i] == (if i in o.rooms || i in o.labs then Entry(t[i].key, Take(t[i].val, false, faculty, program, now))
                           else if i in o.mobiles then Entry(t[i].key, Take(t[i].val, true, faculty, program, now))
                           else t[i]))
      && Keys(o.table) == Keys(t)
      && (WellFormed(t) ==> WellFormed(o.table))
  {
    var o := Allocation(t, faculty, program, n, m, now);
    var t1, t2 := Stages(t, faculty, program, n, m, now);
    AllocationTaken(t, faculty, program, n, m, now);
    TakeAtKeepsKeys(t, o.rooms, false, faculty, program, now);
    TakeAtKeepsKeys(t1, o.labs, false, faculty, program, now);
    TakeAtKeepsKeys(t2, o.mobiles, true, faculty, program, now);
  }

  /** Stage one takes the first `n` free classrooms in table order (all of
      them when fewer are free, none for `n <= 0`); stage two the first `m`
      free laboratories, with Python's slice rule for negative `m`; stage
      three converts classrooms only when laboratories fell short, and then
      at most the shortfall of the free classrooms stage one left, again in
      table order. */
  lemma AllocationPicks(t: Table, faculty: string, program: string, n: int, m: int, now: string)
    requires WellFormed(t)
    ensures var o := Allocation(t, faculty, program, n, m, now);
      var salons := Positions(t, FreeOfKind(Salon), |t|);
      && o.rooms == Head(salons, n)
      && o.labs == PyTake(Positions(t, FreeOfKind(Lab), |t|), m)
      && (|o.labs| >= m ==> o.mobiles == [])
      && (|o.labs| < m ==> o.mobiles == PyTake(salons[|o.rooms|..], m - |o.labs|))
  {
    var o := Allocation(t, faculty, program, n, m, now);
    var t1, t2 := Stages(t, faculty, program, n, m, now);
    var salons := Positions(t, FreeOfKind(Salon), |t|);
    var rp := o.rooms;
    LabsUnchanged(t, rp, faculty, program, now);
    if |o.labs| < m {
      AllocationTaken(t, faculty, program, n, m, now);
      RemainingSalons(t, t1, t2, o.rooms, o.labs, faculty, program, now);
    }
  }

  /** Taking classrooms leaves the free laboratories where they were. */
  lemma LabsUnchanged(t: Table, rp: seq<nat>, faculty: string, program: string, now: string)
    requires rp == Head(Positions(t, FreeOfKind(Salon), |t|), |rp|)
    ensures Positions(TakeAt(t, rp, false, faculty, program, now), FreeOfKind(Lab), |t|) == Positions(t, FreeOfKind(Lab), |t|)
  {
    var t1 := TakeAt(t, rp, false, faculty, program, now);
    PrefixPasses(t, FreeOfKind(Salon), rp);
    var labs := Positions(t, FreeOfKind(Lab), |t|);
    PositionsFacts(t, FreeOfKind(Lab), |t|);
    forall x: nat ensures x in labs <==> x < |t1| && Matches(FreeOfKind(Lab), t1[x].val) {
      if x < |t| {
        assert t1[x] == if x in rp then Entry(t[x].key, Take(t[x].val, false, faculty, program, now)) else t[x];
      }
    }
    PositionsCharacterized(t1, FreeOfKind(Lab), labs);
  }

  /** After stages one and two, the free classrooms outside stage one's ids
      are exactly the free classrooms of the original table that stage one
      did not reach. */
  lemma RemainingSalons(t: Table, t1: Table, t2: Table, rp: seq<nat>, lp: seq<nat>, faculty: string, program: string, now: string)
    requires WellFormed(t)
    requires |rp| <= |Positions(t, FreeOfKind(Salon), |t|)| && rp == Positions(t, FreeOfKind(Salon), |t|)[..|rp|]
    requires t1 == TakeAt(t, rp, false, faculty, program, now)
    requires t2 == TakeAt(t1, lp, false, faculty, program, now)
    requires forall p :: p in lp ==> p < |t| && t[p].val.kind == Lab
    ensures Positions(t2, FreeSalonOutside(Ids(t, rp)), |t2|) == Positions(t, FreeOfKind(Salon), |t|)[|rp|..]
  {
    var salons := Positions(t, FreeOfKind(Salon), |t|);
    var rest := salons[|rp|..];
    PositionsFacts(t, FreeOfKind(Salon), |t|);
    PrefixIncreasing(salons, |rp|);
    var ids := Ids(t, rp);
    forall x: nat ensures x in rest <==> x < |t2| && Matches(FreeSalonOutside(ids), t2[x].val) {
      if x < |t| {
        assert t1[x] == if x in rp then Entry(t[x].key, Take(t[x].val, false, faculty, program, now)) else t[x];
        assert t2[x] == if x in lp then Entry(t1[x].key, Take(t1[x].val, false, faculty, program, now)) else t1[x];
        NotInIds(t, rp, x);
        InRest(salons, |rp|, x);
      }
    }
    PositionsCharacterized(t2, FreeSalonOutside(ids), rest);
  }

  /** In a well-formed table a position reads an id of `ps` only when it is
      in `ps`. */
  lemma NotInIds(t: Table, ps: seq<nat>, x: nat)
    requires WellFormed(t) && x < |t|
    requires forall k :: 0 <= k < |ps| ==> ps[k] < |t|
    ensures t[x].val.id in Ids(t, ps) <==> x in ps
  {
    var ids := Ids(t, ps);
    if t[x].val.id in ids {
      var k :| 0 <= k < |ids| && ids[k] == t[x].val.id;
      assert t[ps[k]].key == t[x].key;
    }
    if x in ps {
      var k :| 0 <= k < |ps| && ps[k] == x;
      assert ids[k] == t[x].val.id;
    }
  }

  /** In an increasing list, the elements after the first `k` are those not
      among the first `k`. */
  lemma InRest(xs: seq<nat>, k: nat, x: nat)
    requires Increasing(xs) && k <= |xs|
    ensures x in xs[k..] <==> x in xs && x !in xs[..k]
  {
    assert xs == xs[..k] + xs[k..];
    if x in xs[k..] {
      var j :| 0 <= j < |xs[k..]| && xs[k..][j] == x;
      assert xs[k + j] == x;
      assert forall i :: 0 <= i < k ==> xs[..k][i] < x;
    }
  }

  /** Under a well-formed table the ids returned are pairwise distinct. */
  lemma AllocationDistinctIds(t: Table, faculty: string, program: string, n: int, m: int, now: string)
    requires WellFormed(t)
    ensures var o := Allocation(t, faculty, program, n, m, now);
      var ids := Ids(t, o.rooms + o.labs + o.mobiles);
      forall a, b :: 0 <= a < b < |ids| ==> ids[a] != ids[b]
  {
    var o := Allocation(t, faculty, program, n, m, now);
    AllocationTaken(t, faculty, program, n, m, now);
    ConcatDistinct(o.rooms, o.labs, o.mobiles);
    IdsDistinct(t, o.rooms + o.labs + o.mobiles);
  }

  /** Three increasing lists with no element in common concatenate to a list
      without repetition. */
  lemma ConcatDistinct(a: seq<nat>, b: seq<nat>, c: seq<nat>)
    requires Increasing(a) && Increasing(b) && Increasing(c)
    requires forall p :: p in a ==> p !in b && p !in c
    requires forall p :: p in b ==> p !in c
    ensures forall i, j :: 0 <= i < j < |a + b + c| ==> (a + b + c)[i] != (a + b + c)[j]
  {
    var ps := a + b + c;
    forall i, j | 0 <= i < j < |ps| ensures ps[i] != ps[j] {
      var r, l := |a|, |a| + |b|;
      if i < r {
        assert ps[i] == a[i] && a[i] in a;
        if j < r { assert ps[j] == a[j]; }
        else if j < l { assert ps[j] == b[j - r] && b[j - r] in b; }
        else { assert ps[j] == c[j - l] && c[j - l] in c; }
      } else if i < l {
        assert ps[i] == b[i - r] && b[i - r] in b;
        if j < l { assert ps[j] == b[j - r]; }
        else { assert ps[j] == c[j - l] && c[j - l] in c; }
      } else {
        assert ps[i] == c[i - l] && ps[j] == c[j - l];
      }
    }
  }

  /** Distinct positions of a well-formed table hold distinct ids. */
  lemma IdsDistinct(t: Table, ps: seq<nat>)
    requires WellFormed(t)
    requires forall p :: p in ps ==> p < |t|
    requires forall i, j :: 0 <= i < j < |ps| ==> ps[i] != ps[j]
    ensures forall i, j :: 0 <= i < j < |ps| ==> Ids(t, ps)[i] != Ids(t, ps)[j]
  {
    var ids := Ids(t, ps);
    forall i, j | 0 <= i < j < |ps| ensures ids[i] != ids[j] {
      assert ps[i] in ps && ps[j] in ps;
      assert t[ps[i]].key != t[ps[j]].key;
    }
  }

  // ---------------------------------------------------------------------------
  // Requests and replies
  // ---------------------------------------------------------------------------

  /** The fields `asignar_aulas` reads from a request; `None` is a missing
      key. */
  datatype Request = Request(
    faculty: Option<string>,
    program: Option<string>,
    rooms: Option<Count>,
    labs: Option<Count>,
    term: Option<Json>)

  /** A count field as `asignar_aulas` meets it: a number (an integer, or a
      boolean, which Python compares and slices with as 0 or 1), `null`, or
      a value of another type, named as Python names it. */
  datatype Count = Number(n: int) | Null | Other(typeName: string)

  function StrField(j: Json, key: string): Option<string>
  {
    match Member(j, key)
    case Some(JStr(s)) => Some(s)
    case _ => None
  }

  function IntField(j: Json, key: string): Option<int>
  {
    match Member(j, key)
    case Some(JInt(i)) => Some(i)
    case _ => None
  }

  /** A count as `asignar_aulas` reads it: an integer, a boolean as 0 or 1,
      `null`, or another value, which it keeps by its type name; `None` is a
      missing key. */
  function CountField(j: Json, key: string): (c: Option<Count>)
    ensures c.None? <==> Member(j, key).None?
    ensures Member(j, key).Some? && Member(j, key).value.JInt? ==> c == Some(Number(Member(j, key).value.i))
    ensures Member(j, key).Some? && Member(j, key).value.JBool? ==> c == Some(Number(if Member(j, key).value.b then 1 else 0))
    ensures Member(j, key).Some? && Member(j, key).value.JNull? ==> c == Some(Null)
    ensures c.Some? && c.value.Other? ==> c.value.typeName == TypeName(Member(j, key).value) && c.value.typeName in {"str", "list", "dict"}
  {
    match Member(j, key)
    case None => None
    case Some(JInt(i)) => Some(Number(i))
    case Some(JBool(b)) => Some(Number(if b then 1 else 0))
    case Some(JNull) => Some(Null)
    case Some(v) => Some(Other(TypeName(v)))
  }

  /** Reads a decoded request object. */
  function RequestOf(j: Json): Request
  {
    Request(StrField(j, "facultad"), StrField(j, "programa"), CountField(j, "salones"),
            CountField(j, "laboratorios"), Member(j, "semestre"))
  }

  datatype Reply =
    | Allocated(faculty: string, program: string, term: Json, rooms: seq<string>, labs: seq<string>, notice: Option<string>)
    | Failed(message: string)

  /** The reply as the JSON object that is sent back. */
  function ReplyJson(r: Reply): Json
  {
    match r
    case Failed(msg) => ErrorObject(msg)
    case Allocated(f, p, term, rooms, labs, notice) =>
      var ids := (xs: seq<string>) => JArr(seq(|xs|, i requires 0 <= i < |xs| => JStr(xs[i])));
      var base := [Entry("facultad", JStr(f)), Entry("programa", JStr(p)), Entry("semestre", term),
                   Entry("salones_asignados", ids(rooms)), Entry("laboratorios_asignados", ids(labs))];
      JObj(if notice.Some? then base + [Entry("notificacion", JStr(notice.value))] else base)
  }

  /** The message of an exception caught by `asignar_aulas`. */
  function AllocationError(detail: string): string
  {
    "Error en la asignación: " + detail
  }

  /** `str(KeyError(key))`: the key in single quotes. */
  function KeyErrorText(key: string): string
  {
    "'" + key + "'"
  }

  /** The first field `asignar_aulas` reads that is missing, if any. */
  function MissingField(req: Request): Option<string>
  {
    if req.faculty.None? then Some("facultad")
    else if req.program.None? then Some("programa")
    else if req.rooms.None? then Some("salones")
    else if req.labs.None? then Some("laboratorios")
    else None
  }

  function NoticeText(converted: nat): string
  {
    "Se han convertido " + ShowNat(converted) + " salones en aulas móviles por falta de laboratorios disponibles."
  }

  /** The outcome of writing the table to its file. */
  datatype Store = Stored | StoreFailed(detail: string)

  /** The reply to a request whose four required fields are present, given
      the allocation made and the outcome of saving the table. */
  function ReplyFor(req: Request, t: Table, o: Outcome, store: Store): (r: Reply)
    requires MissingField(req).None?
  {
    if store.StoreFailed? then Failed(AllocationError(store.detail))
    else if req.term.None? then Failed(AllocationError(KeyErrorText("semestre")))
    else
      Allocated(req.faculty.value, req.program.value, req.term.value, Ids(t, o.rooms),
                Ids(t, o.labs + o.mobiles), if |o.mobiles| > 0 then Some(NoticeText(|o.mobiles|)) else None)
  }

  /** The reply lists the classrooms taken, then the laboratories followed by
      the converted rooms, and carries the conversion notice exactly when a
      room was converted; a missing term fails only after the table has been
      changed and saved. */
  lemma ReplyShape(req: Request, t: Table, o: Outcome, store: Store)
    requires MissingField(req).None?
    ensures var r := ReplyFor(req, t, o, store);
      && (r.Allocated? <==> store.Stored? && req.term.Some?)
      && (r.Allocated? ==> r.rooms == Ids(t, o.rooms) && r.labs == Ids(t, o.labs) + Ids(t, o.mobiles))
      && (r.Allocated? ==> (r.notice.Some? <==> |o.mobiles| > 0))
      && (store.Stored? && req.term.None? ==> r == Failed("Error en la asignación: 'semestre'"))
  {
    assert Ids(t, o.labs + o.mobiles) == Ids(t, o.labs) + Ids(t, o.mobiles);
  }

  /** `str()` of the `TypeError` that `len(...) < c` raises for a count that
      is not a number. */
  function CompareText(c: Count): string
    requires !c.Number?
  {
    "'<' not supported between instances of 'int' and '" + (if c.Null? then "NoneType" else c.typeName) + "'"
  }

  /** `str()` of the `TypeError` that slicing with such a count raises. */
  const SliceText := "slice indices must be integers or None or have an __index__ method"

  /** How the stages end: completed, or stopped by a `TypeError` on a count,
      with the table as far as the stages had changed it. */
  datatype Attempt = Completed(o: Outcome) | Raised(table: Table, detail: string)

  /** The three stages on the counts as the request holds them.  `salones`
      is first compared in the classroom loop, so a count that is not a
      number raises at the first room, before anything changes.
      `laboratorios` is first used to slice the free laboratories, after the
      classrooms were taken: a value of another type raises there, while
      `null` slices out every free laboratory, which are taken, and the
      comparison that follows raises. */
  function Attempted(t: Table, faculty: string, program: string, rooms: Count, labs: Count, now: string): Attempt
  {
    if !rooms.Number? && |t| > 0 then Raised(t, CompareText(rooms))
    else
      var n := if rooms.Number? then rooms.n else 0;
      var t1 := TakeAt(t, Head(Positions(t, FreeOfKind(Salon), |t|), n), false, faculty, program, now);
      match labs
      case Number(m) => Completed(Allocation(t, faculty, program, n, m, now))
      case Other(_) => Raised(t1, SliceText)
      case Null => Raised(TakeAt(t1, Positions(t1, FreeOfKind(Lab), |t1|), false, faculty, program, now), CompareText(Null))
  }

  /** Taking rooms that are all free, without conversion: every room that
      changes was free and is now assigned, and no room changes kind. */
  lemma TakeFree(t: Table, ps: seq<nat>, faculty: string, program: string, now: string)
    requires forall p :: p in ps ==> p < |t| && t[p].val.status == Available
    ensures var t' := TakeAt(t, ps, false, faculty, program, now);
      && Keys(t') == Keys(t)
      && forall i :: 0 <= i < |t| ==>
           (t'[i].val.kind == t[i].val.kind && (t'[i] != t[i] ==> t[i].val.status == Available && t'[i].val.status == Assigned))
  {
    TakeAtKeepsKeys(t, ps, false, faculty, program, now);
  }

  /** A count that is not a number stops the allocation with a `TypeError`:
      a bad `salones` before any room is taken (on a non-empty table), a bad
      `laboratorios` after the classrooms are taken, exactly as an
      allocation for no laboratories takes them, and a `null` one after
      every free laboratory is taken as well.  The rooms changed by then
      were free, are now assigned, and keep their kind: none is converted. */
  lemma Interrupted(t: Table, faculty: string, program: string, rooms: Count, labs: Count, now: string)
    ensures var a := Attempted(t, faculty, program, rooms, labs, now);
      && (a.Raised? <==> (!rooms.Number? && |t| > 0) || !labs.Number?)
      && (!rooms.Number? && |t| > 0 ==> a == Raised(t, CompareText(rooms)))
      && (rooms.Number? && labs.Other? ==> a == Raised(Allocation(t, faculty, program, rooms.n, 0, now).table, SliceText))
      && ((rooms.Number? || |t| == 0) && labs.Null? ==>
            && a.detail == "'<' not supported between instances of 'int' and 'NoneType'"
            && forall i :: 0 <= i < |a.table| && a.table[i].val.kind == Lab ==> a.table[i].val.status == Assigned)
      && (a.Raised? ==>
            (&& |a.table| == |t| && Keys(a.table) == Keys(t)
             && forall i :: 0 <= i < |t| ==>
                  (a.table[i].val.kind == t[i].val.kind
                   && (a.table[i] != t[i] ==> t[i].val.status == Available && a.table[i].val.status == Assigned))))
  {
    if rooms.Number? || |t| == 0 {
      var n := if rooms.Number? then rooms.n else 0;
      var rp := Head(Positions(t, FreeOfKind(Salon), |t|), n);
      PrefixPasses(t, FreeOfKind(Salon), rp);
      TakeFree(t, rp, faculty, program, now);
      var t1 := TakeAt(t, rp, false, faculty, program, now);
      if labs.Other? && rooms.Number? {
        NoLabsStage(t, faculty, program, n, now);
      }
      if labs.Null? {
        AllLabsTaken(t1, faculty, program, now);
      }
    }
  }

  /** An allocation for no laboratories is the classroom stage alone. */
  lemma NoLabsStage(t: Table, faculty: string, program: string, n: int, now: string)
    ensures Allocation(t, faculty, program, n, 0, now).table
            == TakeAt(t, Head(Positions(t, FreeOfKind(Salon), |t|), n), false, faculty, program, now)
  {
    var t1 := TakeAt(t, Head(Positions(t, FreeOfKind(Salon), |t|), n), false, faculty, program, now);
    TakeAtNone(t1, false, faculty, program, now);
    assert PyTake(Positions(t1, FreeOfKind(Lab), |t1|), 0) == [];
    TakeAtNone(t1, true, faculty, program, now);
  }

  /** Taking every free laboratory leaves none free, and changes only free
      rooms, without converting any. */
  lemma AllLabsTaken(t: Table, faculty: string, program: string, now: string)
    ensures var t' := TakeAt(t, Positions(t, FreeOfKind(Lab), |t|), false, faculty, program, now);
      && Keys(t') == Keys(t)
      && (forall i :: 0 <= i < |t| ==>
            (t'[i].val.kind == t[i].val.kind && (t'[i] != t[i] ==> t[i].val.status == Available && t'[i].val.status == Assigned)))
      && forall i :: 0 <= i < |t'| && t'[i].val.kind == Lab ==> t'[i].val.status == Assigned
  {
    var lp := Positions(t, FreeOfKind(Lab), |t|);
    PositionsFacts(t, FreeOfKind(Lab), |t|);
    TakeFree(t, lp, faculty, program, now);
    var t' := TakeAt(t, lp, false, faculty, program, now);
    forall i | 0 <= i < |t'| && t'[i].val.kind == Lab
      ensures t'[i].val.status == Assigned
    {
      if t[i].val.status == Available {
        assert Matches(FreeOfKind(Lab), t[i].val);
      }
    }
  }

  /** Everything `asignar_aulas` does to table `t`: its reply, the table it
      leaves, and whether it reached the save and the save succeeded. */
  datatype Assignment = Assignment(reply: Reply, table: Table, saved: bool)

  function Assign(req: Request, t: Table, now: string, store: Store): (a: Assignment)
    ensures MissingField(req).Some? ==> a == Assignment(Failed(AllocationError(KeyErrorText(MissingField(req).value))), t, false)
    ensures a.reply.Allocated? ==> a.saved
    ensures a.saved <==> MissingField(req).None? && store.Stored?
                         && Attempted(t, req.faculty.value, req.program.value, req.rooms.value, req.labs.value, now).Completed?
  {
    if MissingField(req).Some? then Assignment(Failed(AllocationError(KeyErrorText(MissingField(req).value))), t, false)
    else
      match Attempted(t, req.faculty.value, req.program.value, req.rooms.value, req.labs.value, now)
      case Raised(t', detail) => Assignment(Failed(AllocationError(detail)), t', false)
      case Completed(o) => Assignment(ReplyFor(req, t, o, store), o.table, store.Stored?)
  }

  // ---------------------------------------------------------------------------
  // Statistics and reset
  // ---------------------------------------------------------------------------

  datatype Stats = Stats(
    salons: nat, labs: nat, mobiles: nat,
    freeSalons: nat, freeLabs: nat, mobilesInUse: nat)

  /** The counters `obtener_estadisticas` builds, over the rooms in order. */
  function StatsOf(t: Table): (s: Stats)
    ensures s.salons + s.labs + s.mobiles == |t|
    ensures s.freeSalons <= s.salons && s.freeLabs <= s.labs && s.mobilesInUse <= s.mobiles
    decreases |t|
  {
    if |t| == 0 then Stats(0, 0, 0, 0, 0, 0) else Counted(StatsOf(t[..|t| - 1]), t[|t| - 1].val)
  }

  /** The counters after one more room. */
  function Counted(s: Stats, r: Room): Stats
  {
    match r.kind
    case Salon => s.(salons := s.salons + 1, freeSalons := s.freeSalons + if r.status == Available then 1 else 0)
    case Lab => s.(labs := s.labs + 1, freeLabs := s.freeLabs + if r.status == Available then 1 else 0)
    case Mobile => s.(mobiles := s.mobiles + 1, mobilesInUse := s.mobilesInUse + if r.status == Assigned then 1 else 0)
  }

  lemma StatsOfSnoc(t: Table, i: nat)
    requires i < |t|
    ensures StatsOf(t[..i + 1]) == Counted(StatsOf(t[..i]), t[i].val)
  {
    assert t[..i + 1][..i] == t[..i];
  }

  /** A room after the reset: free, with no faculty, programme or dates, and
      a mobile lab back to a classroom. */
  function Cleared(r: Room): (r': Room)
    ensures r'.id == r.id && r'.capacity == r.capacity && r'.status == Available
    ensures r'.faculty == "" && r'.program == "" && r'.requestedAt == "" && r'.assignedAt == ""
    ensures r'.kind == if r.kind == Mobile then Salon else r.kind
  {
    r.(status := Available, faculty := "", program := "", requestedAt := "", assignedAt := "",
       kind := if r.kind == Mobile then Salon else r.kind)
  }

  function ClearedTable(t: Table): (t': Table)
    ensures |t'| == |t| && forall i :: 0 <= i < |t| ==> t'[i] == Entry(t[i].key, Cleared(t[i].val))
  {
    seq(|t|, i requires 0 <= i < |t| => Entry(t[i].key, Cleared(t[i].val)))
  }

  /** Resetting twice is resetting once. */
  lemma ClearIdempotent(t: Table)
    ensures ClearedTable(ClearedTable(t)) == ClearedTable(t)
  {
    assert forall i :: 0 <= i < |t| ==> Cleared(Cleared(t[i].val)) == Cleared(t[i].val);
  }

  /** After the reset there are no mobile labs and every room is free. */
  lemma {:induction false} StatsAfterClear(t: Table)
    ensures var s := StatsOf(ClearedTable(t));
      s.mobiles == 0 && s.mobilesInUse == 0 && s.freeSalons == s.salons && s.freeLabs == s.labs
    decreases |t|
  {
    if |t| > 0 {
      var init := t[..|t| - 1];
      assert ClearedTable(t)[..|t| - 1] == ClearedTable(init);
      StatsAfterClear(init);
    }
  }

  // ---------------------------------------------------------------------------
  // The server object
  // ---------------------------------------------------------------------------

  /** Taking one more room, not yet taken, at position `i`. */
  lemma TakeAtSnoc(t0: Table, ps: seq<nat>, i: nat, asMobile: bool, faculty: string, program: string, now: string)
    requires i < |t0| && i !in ps
    ensures var cur := TakeAt(t0, ps, asMobile, faculty, program, now);
      cur[i := Entry(cur[i].key, Take(cur[i].val, asMobile, faculty, program, now))]
      == TakeAt(t0, ps + [i], asMobile, faculty, program, now)
  {
    var cur := TakeAt(t0, ps, asMobile, faculty, program, now);
    var next := cur[i := Entry(cur[i].key, Take(cur[i].val, asMobile, faculty, program, now))];
    var goal := TakeAt(t0, ps + [i], asMobile, faculty, program, now);
    forall j | 0 <= j < |t0| ensures next[j] == goal[j] {
      assert (j in ps + [i]) == (j in ps || j == i);
    }
  }

  lemma TakeAtNone(t0: Table, asMobile: bool, faculty: string, program: string, now: string)
    ensures TakeAt(t0, [], asMobile, faculty, program, now) == t0
  {
  }

  /** The classroom stage's picks among the first `i` rooms, room by room. */
  function SalonPicks(t: Table, i: nat, n: int): (ps: seq<nat>)
    requires i <= |t|
    ensures forall k :: 0 <= k < |ps| ==> ps[k] < i
    decreases i
  {
    if i == 0 then []
    else
      var p := SalonPicks(t, i - 1, n);
      var r := t[i - 1].val;
      if |p| < n && r.kind == Salon && r.status == Available then p + [i - 1] else p
  }

  /** The first `n` of a sequence that may grow by one element. */
  lemma HeadStep<T>(xs: seq<T>, ys: seq<T>, p: seq<T>, q: seq<T>, x: T, n: int, add: bool)
    requires ys == xs + (if add then [x] else []) && p == Head(xs, n)
    requires q == if |p| < n && add then p + [x] else p
    ensures q == Head(ys, n)
  {
    if add {
      HeadSnoc(xs, x, n);
    } else {
      assert xs + [] == xs;
    }
  }

  /** Room by room, the classroom stage picks the first `n` free classrooms. */
  lemma {:induction false} SalonPicksHead(t: Table, i: nat, n: int)
    requires i <= |t|
    ensures SalonPicks(t, i, n) == Head(Positions(t, FreeOfKind(Salon), i), n)
    decreases i
  {
    if i > 0 {
      var r := t[i - 1].val;
      var add := r.kind == Salon && r.status == Available;
      var xs := Positions(t, FreeOfKind(Salon), i - 1);
      var p := SalonPicks(t, i - 1, n);
      SalonPicksHead(t, i - 1, n);
      HeadStep(xs, Positions(t, FreeOfKind(Salon), i), p, SalonPicks(t, i, n), i - 1, n, add);
    }
  }

  class RoomServer {
    /** `self.aulas`. */
    var rooms: Table
    /** The rows of the room file as last written or read. */
    var stored: seq<Room>

    predicate Valid()
      reads this
    {
      WellFormed(rooms)
    }

    /** `ServidorDTI()` with the file's rows already read as rooms: each row
        is stored under its id, a later row with the same id replacing the
        earlier one in place. */
    constructor (rows: seq<Room>)
      ensures rooms == FromRows(rows) && stored == rows
      ensures Valid()
    {
      var t: Table := [];
      var i := 0;
      while i < |rows|
        invariant 0 <= i <= |rows|
        invariant t == FromRows(rows[..i])
      {
        assert rows[..i + 1][..i] == rows[..i];
        t := Put(t, rows[i].id, rows[i]);
        i := i + 1;
      }
      assert rows[..|rows|] == rows;
      FromRowsWellFormed(rows);
      rooms := t;
      stored := rows;
    }

    /** `guardar_aulas`: the rows written are the rooms in table order; a
        failed write leaves the recorded rows as they were. */
    method Save(store: Store)
      modifies this
      ensures rooms == old(rooms)
      ensures stored == if store.Stored? then Values(rooms) else old(stored)
    {
      if store.Stored? {
        stored := Values(rooms);
      }
    }

    /** `asignar_aulas`.  The four required fields are read before anything
        changes, so a missing one leaves the table untouched.  Otherwise the
        stages run on the counts as given; a count that is not a number
        stops them with a `TypeError`, leaving the rooms taken so far taken
        and the file unwritten.  When the stages complete, the table is
        saved and the reply is built. */
    method Allocate(req: Request, now: string, store: Store) returns (reply: Reply)
      modifies this
      ensures var a := Assign(req, old(rooms), now, store);
        reply == a.reply && rooms == a.table && stored == (if a.saved then Values(rooms) else old(stored))
      ensures MissingField(req).Some? ==>
        reply == Failed(AllocationError(KeyErrorText(MissingField(req).value)))
        && rooms == old(rooms) && stored == old(stored)
      ensures MissingField(req).None? && req.rooms.value.Number? && req.labs.value.Number? ==>
        var o := Allocation(old(rooms), req.faculty.value, req.program.value, req.rooms.value.n, req.labs.value.n, now);
        && rooms == o.table
        && stored == (if store.Stored? then Values(o.table) else old(stored))
        && reply == ReplyFor(req, old(rooms), o, store)
      ensures MissingField(req).None? ==>
        var a := Attempted(old(rooms), req.faculty.value, req.program.value, req.rooms.value, req.labs.value, now);
        a.Raised? ==> reply == Failed(AllocationError(a.detail)) && rooms == a.table && stored == old(stored)
      ensures old(Valid()) ==> Valid()
    {
      var missing := MissingField(req);
      if missing.Some? {
        return Failed(AllocationError(KeyErrorText(missing.value)));
      }
      var faculty, program, c, d := req.faculty.value, req.program.value, req.rooms.value, req.labs.value;
      if !c.Number? && |rooms| > 0 {
        return Failed(AllocationError(CompareText(c)));
      }
      var n := if c.Number? then c.n else 0;
      var t0 := rooms;
      match d {
        case Number(m) =>
          var o := Allocation(t0, faculty, program, n, m, now);
          RunStages(faculty, program, n, m, now);
          AllocationEffect(t0, faculty, program, n, m, now);
          Save(store);
          reply := ReplyFor(req, t0, o, store);
        case _ =>
          reply := StopAtLabs(n, d, faculty, program, now);
      }
    }

    /** The stages up to a `laboratorios` that is not a number: the
        classrooms are taken, and for `null` every free laboratory as well,
        before the `TypeError`; nothing is saved. */
    method StopAtLabs(n: int, labs: Count, faculty: string, program: string, now: string) returns (reply: Reply)
      requires !labs.Number?
      modifies this
      ensures var a := Attempted(old(rooms), faculty, program, Number(n), labs, now);
        a.Raised? && reply == Failed(AllocationError(a.detail)) && rooms == a.table
      ensures stored == old(stored)
      ensures old(Valid()) ==> Valid()
    {
      var t0 := rooms;
      var picked := TakeSalons(n, faculty, program, now);
      TakeAtKeepsKeys(t0, picked, false, faculty, program, now);
      if labs.Other? {
        return Failed(AllocationError(SliceText));
      }
      var t1 := rooms;
      var ps := Positions(rooms, FreeOfKind(Lab), |rooms|);
      PositionsFacts(rooms, FreeOfKind(Lab), |rooms|);
      TakeEach(ps, false, faculty, program, now);
      TakeAtKeepsKeys(t1, ps, false, faculty, program, now);
      reply := Failed(AllocationError(CompareText(Null)));
    }

    /** The three stages of `asignar_aulas`, one after the other. */
    method RunStages(faculty: string, program: string, n: int, m: int, now: string)
      modifies this
      ensures rooms == Allocation(old(rooms), faculty, program, n, m, now).table
      ensures stored == old(stored)
    {
      var t0 := rooms;
      var o := Allocation(t0, faculty, program, n, m, now);
      ghost var t1, t2 := Stages(t0, faculty, program, n, m, now);

      var picked := TakeSalons(n, faculty, program, now);
      assert rooms == t1;

      // The first `m` free laboratories.
      var labs := PyTake(Positions(rooms, FreeOfKind(Lab), |rooms|), m);
      PrefixPasses(rooms, FreeOfKind(Lab), labs);
      TakeEach(labs, false, faculty, program, now);
      assert rooms == t2;

      // Free classrooms converted to cover the shortfall.
      var mobiles: seq<nat> := [];
      if |labs| < m {
        mobiles := PyTake(Positions(rooms, FreeSalonOutside(Ids(t0, picked)), |rooms|), m - |labs|);
        PrefixPasses(rooms, FreeSalonOutside(Ids(t0, picked)), mobiles);
        TakeEach(mobiles, true, faculty, program, now);
      }
    }

    /** The classroom stage: in table order, each free classroom is taken
        while fewer than `n` have been. */
    method TakeSalons(n: int, faculty: string, program: string, now: string) returns (picked: seq<nat>)
      modifies this
      ensures picked == Head(Positions(old(rooms), FreeOfKind(Salon), |old(rooms)|), n)
      ensures rooms == TakeAt(old(rooms), picked, false, faculty, program, now)
      ensures stored == old(stored)
    {
      var t0 := rooms;
      var cur := rooms;
      picked := [];
      TakeAtNone(t0, false, faculty, program, now);
      var i := 0;
      while i < |cur|
        invariant |cur| == |t0| && 0 <= i <= |t0|
        invariant picked == SalonPicks(t0, i, n)
        invariant cur == TakeAt(t0, picked, false, faculty, program, now)
        invariant rooms == t0 && stored == old(stored)
      {
        assert i !in picked;
        assert cur[i] == t0[i];
        var r := cur[i].val;
        if |picked| < n && r.kind == Salon && r.status == Available {
          TakeAtSnoc(t0, picked, i, false, faculty, program, now);
          cur := cur[i := Entry(cur[i].key, Take(r, false, faculty, program, now))];
          picked := picked + [i];
        }
        i := i + 1;
      }
      SalonPicksHead(t0, |t0|, n);
      rooms := cur;
    }

    /** Takes the rooms at the increasing positions `ps`, one at a time. */
    method TakeEach(ps: seq<nat>, asMobile: bool, faculty: string, program: string, now: string)
      requires Increasing(ps) && forall k :: 0 <= k < |ps| ==> ps[k] < |rooms|
      modifies this
      ensures rooms == TakeAt(old(rooms), ps, asMobile, faculty, program, now)
      ensures stored == old(stored)
    {
      var t := rooms;
      var k := 0;
      while k < |ps|
        invariant 0 <= k <= |ps| && |rooms| == |t|
        invariant rooms == TakeAt(t, ps[..k], asMobile, faculty, program, now)
        invariant stored == old(stored)
      {
        var p := ps[k];
        assert p !in ps[..k];
        assert forall x :: x in ps[..k + 1] <==> x in ps[..k] || x == p;
        rooms := rooms[p := Entry(rooms[p].key, Take(rooms[p].val, asMobile, faculty, program, now))];
        k := k + 1;
      }
      assert ps[..|ps|] == ps;
    }

    /** `obtener_estadisticas`. */
    method Statistics() returns (s: Stats)
      ensures s == StatsOf(rooms)
    {
      s := Stats(0, 0, 0, 0, 0, 0);
      var t := rooms;
      var i := 0;
      while i < |t|
        invariant 0 <= i <= |t|
        invariant s == StatsOf(t[..i])
      {
        StatsOfSnoc(t, i);
        var r := t[i].val;
        match r.kind {
          case Salon =>
            s := s.(salons := s.salons + 1);
            if r.status == Available { s := s.(freeSalons := s.freeSalons + 1); }
          case Lab =>
            s := s.(labs := s.labs + 1);
            if r.status == Available { s := s.(freeLabs := s.freeLabs + 1); }
          case Mobile =>
            s := s.(mobiles := s.mobiles + 1);
            if r.status == Assigned { s := s.(mobilesInUse := s.mobilesInUse + 1); }
        }
        i := i + 1;
      }
      assert t[..|t|] == t;
    }
  }

  /** `limpiar_sistema`: every room reset in place, then the table saved. */
  method Reset(server: RoomServer, store: Store)
    modifies server
    ensures server.rooms == ClearedTable(old(server.rooms))
    ensures server.stored == if store.Stored? then Values(server.rooms) else old(server.stored)
    ensures old(server.Valid()) ==> server.Valid()
  {
    var t := server.rooms;
    var i := 0;
    while i < |server.rooms|
      invariant |server.rooms| == |t| && 0 <= i <= |t|
      invariant forall j :: 0 <= j < |t| ==> server.rooms[j] == if j < i then Entry(t[j].key, Cleared(t[j].val)) else t[j]
      invariant server.stored == old(server.stored)
    {
      server.rooms := server.rooms[i := Entry(server.rooms[i].key, Cleared(server.rooms[i].val))];
      i := i + 1;
    }
    assert server.rooms == ClearedTable(t);
    if old(server.Valid()) {
      assert Keys(server.rooms) == Keys(t);
    }
    server.Save(store);
  }
}
