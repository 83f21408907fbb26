/** The in-memory content store: six independent tables keyed by generated
    ids, seeded with fixture programs, faculty and events.

    Id generation (`randomUUID`) is an oracle: every create takes the new id
    as an argument, and the store's ghost `issued` set records every id handed
    out so far, so a create demands an id never issued before. The clock
    (`new Date().toISOString()`) is the `now` argument of `CreateContact`, and
    the date parse of the event sort (`new Date(date).getTime()`) is the
    `dateValue` argument of `GetEvents`. */
module Storage {
  import opened Wrappers
  import opened Sequences
  import opened Schema
  import opened Tables

  /** The six tables as one value. */
  datatype Store = Store(
    faculty: Table<Faculty>,
    events: Table<Event>,
    programs: Table<Program>,
    galleryImages: Table<GalleryImage>,
    contacts: Table<Contact>,
    announcements: Table<Announcement>)
  {
    /** Every table is a well-formed map. */
    ghost predicate WellFormed() {
      && faculty.Valid() && events.Valid() && programs.Valid()
      && galleryImages.Valid() && contacts.Valid() && announcements.Valid()
    }

    /** Every table is a well-formed map, and every record is stored under its own id. */
    ghost predicate Valid() {
      && WellFormed()
      && (forall k :: k in faculty.rows ==> faculty.rows[k].id == k)
      && (forall k :: k in events.rows ==> events.rows[k].id == k)
      && (forall k :: k in programs.rows ==> programs.rows[k].id == k)
      && (forall k :: k in galleryImages.rows ==> galleryImages.rows[k].id == k)
      && (forall k :: k in contacts.rows ==> contacts.rows[k].id == k)
      && (forall k :: k in announcements.rows ==> announcements.rows[k].id == k)
    }
  }

  // ----------------------------------------------------------------- fixtures

  const DefaultPrograms: seq<InsertProgram> := [
    InsertProgram("Mathematics & Sciences",
      "Advanced STEM curriculum with hands-on laboratory experiences and research opportunities.",
      "STEM", Some(18)),
    InsertProgram("Arts & Humanities",
      "Comprehensive liberal arts education fostering critical thinking and creative expression.",
      "ARTS", Some(15)),
    InsertProgram("Technology & Engineering",
      "Cutting-edge programs in computer science, robotics, and engineering design.",
      "TECH", Some(12)),
    InsertProgram("World Languages",
      "Immersive language programs including Spanish, French, Mandarin, and Latin.",
      "LANG", Some(10)),
    InsertProgram("Physical Education",
      "Comprehensive athletics and wellness programs promoting health and teamwork.",
      "PE", Some(8)),
    InsertProgram("Social Sciences",
      "In-depth study of history, geography, economics, and contemporary global issues.",
      "SOC", Some(14))
  ]

  const DefaultFaculty: seq<InsertFaculty> := [
    InsertFaculty("Dr. Emily Chen", "Head of Science Department", "Mathematics & Sciences",
      "echen@excellenceacademy.edu",
      "Dr. Chen has 15 years of experience teaching advanced biology and chemistry. She holds a Ph.D. in Molecular Biology from MIT.",
      Omitted),
    InsertFaculty("Prof. Michael Rodriguez", "English Literature Professor", "Arts & Humanities",
      "mrodriguez@excellenceacademy.edu",
      "Professor Rodriguez specializes in American literature and creative writing. He has published three novels and numerous academic papers.",
      Omitted),
    InsertFaculty("Dr. Sarah Johnson", "Director of Technology", "Technology & Engineering",
      "sjohnson@excellenceacademy.edu",
      "Dr. Johnson leads our computer science and robotics programs. She previously worked as a software engineer at Google.",
      Omitted)
  ]

  const DefaultEvents: seq<InsertEvent> := [
    InsertEvent("Fall Open House",
      "Join us for a tour of our campus, meet our faculty, and learn about our academic programs.",
      "2024-11-15", "10:00 AM - 2:00 PM", "Main Campus", "Academic", Omitted),
    InsertEvent("Science Fair",
      "Students showcase their innovative science projects and research findings.",
      "2024-11-22", "1:00 PM - 5:00 PM", "Science Building", "Academic", Omitted),
    InsertEvent("Winter Concert",
      "Annual performance featuring our orchestra, choir, and band students.",
      "2024-12-10", "7:00 PM", "Performing Arts Center", "Arts", Omitted)
  ]

  /** Seeding consumes one id per fixture: the programs' ids first, then the
      faculty's from `FacultyFrom`, then the events' from `EventsFrom`. */
  const FacultyFrom := |DefaultPrograms|
  const EventsFrom := FacultyFrom + |DefaultFaculty|
  const SeedCount := EventsFrom + |DefaultEvents|

  /** Six programs, three faculty members and three events. */
  lemma FixtureSizes()
    ensures |DefaultPrograms| == 6 && |DefaultFaculty| == 3 && |DefaultEvents| == 3
    ensures SeedCount == 12
  {
  }

  /** `t` holds `inputs[j]` stored under `ids[from + j]`, for each `j` in order,
      and nothing else. */
  ghost predicate ProgramsSeeded(t: Table<Program>, inputs: seq<InsertProgram>, ids: seq<Id>, from: nat) {
    && from + |inputs| <= |ids|
    && |t.order| == |inputs|
    && (forall j :: 0 <= j < |inputs| ==> t.order[j] == ids[from + j])
    && (forall j :: 0 <= j < |inputs| ==> t.Get(ids[from + j]) == Some(inputs[j].WithId(ids[from + j])))
  }

  ghost predicate FacultySeeded(t: Table<Faculty>, inputs: seq<InsertFaculty>, ids: seq<Id>, from: nat) {
    && from + |inputs| <= |ids|
    && |t.order| == |inputs|
    && (forall j :: 0 <= j < |inputs| ==> t.order[j] == ids[from + j])
    && (forall j :: 0 <= j < |inputs| ==> t.Get(ids[from + j]) == Some(inputs[j].WithId(ids[from + j])))
  }

  ghost predicate EventsSeeded(t: Table<Event>, inputs: seq<InsertEvent>, ids: seq<Id>, from: nat) {
    && from + |inputs| <= |ids|
    && |t.order| == |inputs|
    && (forall j :: 0 <= j < |inputs| ==> t.order[j] == ids[from + j])
    && (forall j :: 0 <= j < |inputs| ==> t.Get(ids[from + j]) == Some(inputs[j].WithId(ids[from + j])))
  }

  /** Right after seeding, listing a table yields the fixtures in fixture
      order, each carrying the id it was created with. */
  lemma {:induction false} SeededProgramsListed(t: Table<Program>, inputs: seq<InsertProgram>, ids: seq<Id>, from: nat)
    requires t.Valid() && ProgramsSeeded(t, inputs, ids, from)
    ensures |t.Values()| == |inputs|
    ensures forall j :: 0 <= j < |inputs| ==> t.Values()[j] == inputs[j].WithId(ids[from + j])
  {
    forall j | 0 <= j < |inputs| ensures t.Values()[j] == inputs[j].WithId(ids[from + j]) {
      assert t.Get(ids[from + j]) == Some(inputs[j].WithId(ids[from + j]));
    }
  }

  lemma {:induction false} SeededFacultyListed(t: Table<Faculty>, inputs: seq<InsertFaculty>, ids: seq<Id>, from: nat)
    requires t.Valid() && FacultySeeded(t, inputs, ids, from)
    ensures |t.Values()| == |inputs|
    ensures forall j :: 0 <= j < |inputs| ==> t.Values()[j] == inputs[j].WithId(ids[from + j])
  {
    forall j | 0 <= j < |inputs| ensures t.Values()[j] == inputs[j].WithId(ids[from + j]) {
      assert t.Get(ids[from + j]) == Some(inputs[j].WithId(ids[from + j]));
    }
  }

  lemma {:induction false} SeededEventsListed(t: Table<Event>, inputs: seq<InsertEvent>, ids: seq<Id>, from: nat)
    requires t.Valid() && EventsSeeded(t, inputs, ids, from)
    ensures |t.Values()| == |inputs|
    ensures forall j :: 0 <= j < |inputs| ==> t.Values()[j] == inputs[j].WithId(ids[from + j])
  {
    forall j | 0 <= j < |inputs| ensures t.Values()[j] == inputs[j].WithId(ids[from + j]) {
      assert t.Get(ids[from + j]) == Some(inputs[j].WithId(ids[from + j]));
    }
  }

  /** The ids `ids[from]` up to, not including, `ids[to]`. */
  ghost function IdsBetween(ids: seq<Id>, from: nat, to: nat): set<Id>
    requires from <= to <= |ids|
  {
    if from == to then {} else IdsBetween(ids, from, to - 1) + {ids[to - 1]}
  }

  lemma {:induction false} IdsBetweenJoin(ids: seq<Id>, a: nat, b: nat, c: nat)
    requires a <= b <= c <= |ids|
    ensures IdsBetween(ids, a, b) + IdsBetween(ids, b, c) == IdsBetween(ids, a, c)
  {
    if b < c {
      IdsBetweenJoin(ids, a, b, c - 1);
    }
  }

  /** A table whose keys, in order, are `ids[from]` onwards holds exactly those ids. */
  lemma {:induction false} OrderedKeys<R>(t: Table<R>, ids: seq<Id>, from: nat, to: nat)
    requires t.Valid() && from <= to <= |ids| && |t.order| == to - from
    requires forall j :: 0 <= j < to - from ==> t.order[j] == ids[from + j]
    ensures t.rows.Keys == IdsBetween(ids, from, to)
  {
    IdsInOrder(t.order, ids, from, to - from);
  }

  /** Three tables filled, in turn, from consecutive runs of `ids` hold
      exactly the ids of `ids`. */
  lemma SeededIdsIssued<P, F, E>(ids: seq<Id>, p: Table<P>, f: Table<F>, e: Table<E>, b: nat, c: nat)
    requires p.Valid() && f.Valid() && e.Valid() && b <= c <= |ids|
    requires |p.order| == b && forall j :: 0 <= j < b ==> p.order[j] == ids[j]
    requires |f.order| == c - b && forall j :: 0 <= j < c - b ==> f.order[j] == ids[b + j]
    requires |e.order| == |ids| - c && forall j :: 0 <= j < |ids| - c ==> e.order[j] == ids[c + j]
    ensures p.rows.Keys + f.rows.Keys + e.rows.Keys == IdsBetween(ids, 0, |ids|)
  {
    OrderedKeys(p, ids, 0, b);
    OrderedKeys(f, ids, b, c);
    OrderedKeys(e, ids, c, |ids|);
    RunsJoin(ids, p.rows.Keys, f.rows.Keys, e.rows.Keys, b, c);
  }

  /** Three consecutive runs of `ids` make up all of `ids`. */
  lemma RunsJoin(ids: seq<Id>, first: set<Id>, second: set<Id>, third: set<Id>, b: nat, c: nat)
    requires b <= c <= |ids|
    requires first == IdsBetween(ids, 0, b) && second == IdsBetween(ids, b, c)
    requires third == IdsBetween(ids, c, |ids|)
    ensures first + second + third == IdsBetween(ids, 0, |ids|)
  {
    IdsBetweenJoin(ids, 0, b, c);
    IdsBetweenJoin(ids, 0, c, |ids|);
  }

  lemma {:induction false} IdsInOrder(order: seq<Id>, ids: seq<Id>, from: nat, n: nat)
    requires from + n <= |ids| && |order| == n
    requires forall j :: 0 <= j < n ==> order[j] == ids[from + j]
    ensures forall x :: x in order <==> x in IdsBetween(ids, from, from + n)
  {
    if n > 0 {
      IdsInOrder(order[..n - 1], ids, from, n - 1);
      assert order == order[..n - 1] + [order[n - 1]];
    }
  }

  lemma {:induction false} IdsBetweenAreIds(ids: seq<Id>, from: nat, to: nat)
    requires from <= to <= |ids|
    ensures forall x :: x in IdsBetween(ids, from, to) ==> x in ids
  {
    if from < to {
      IdsBetweenAreIds(ids, from, to - 1);
    }
  }

  // ------------------------------------------------------------- event order

  ghost predicate SortedByDate(s: seq<Event>, dateValue: string -> int) {
    forall i, j :: 0 <= i < j < |s| ==> dateValue(s[i].date) <= dateValue(s[j].date)
  }

  /** The events of `s` whose date has value `d`, in order. */
  function OnDate(s: seq<Event>, d: int, dateValue: string -> int): seq<Event> {
    if s == [] then []
    else (if dateValue(s[0].date) == d then [s[0]] else []) + OnDate(s[1..], d, dateValue)
  }

  lemma {:induction false} OnDateAppend(a: seq<Event>, b: seq<Event>, d: int, dateValue: string -> int)
    ensures OnDate(a + b, d, dateValue) == OnDate(a, d, dateValue) + OnDate(b, d, dateValue)
  {
    if a != [] {
      assert (a + b)[0] == a[0] && (a + b)[1..] == a[1..] + b;
      OnDateAppend(a[1..], b, d, dateValue);
    } else {
      assert a + b == b;
    }
  }

  /** Places `e` after every element whose date value is at most its own. */
  function InsertByDate(s: seq<Event>, e: Event, dateValue: string -> int): (r: seq<Event>)
    ensures multiset(r) == multiset(s) + multiset{e}
  {
    if s == [] then [e]
    else if dateValue(s[|s| - 1].date) <= dateValue(e.date) then s + [e]
    else
      assert s == s[..|s| - 1] + [s[|s| - 1]];
      InsertByDate(s[..|s| - 1], e, dateValue) + [s[|s| - 1]]
  }

  lemma {:induction false} InsertByDateSorted(s: seq<Event>, e: Event, dateValue: string -> int)
    requires SortedByDate(s, dateValue)
    ensures SortedByDate(InsertByDate(s, e, dateValue), dateValue)
  {
    if s != [] && dateValue(s[|s| - 1].date) > dateValue(e.date) {
      var init, last := s[..|s| - 1], s[|s| - 1];
      InsertByDateSorted(init, e, dateValue);
      var r := InsertByDate(init, e, dateValue);
      forall i | 0 <= i < |r| ensures dateValue(r[i].date) <= dateValue(last.date) {
        assert r[i] in multiset(init) + multiset{e};
        if r[i] in multiset(init) {
          var j :| 0 <= j < |init| && init[j] == r[i];
          assert s[j] == init[j];
        }
      }
    }
  }

  /** The order `Array.prototype.sort` gives with the comparator
      `dateValue(a.date) - dateValue(b.date)`: sorted, a permutation, and
      stable (see `SortByDateStable`). */
  function SortByDate(s: seq<Event>, dateValue: string -> int): (r: seq<Event>)
    ensures SortedByDate(r, dateValue)
    ensures multiset(r) == multiset(s)
  {
    if s == [] then []
    else
      var init := SortByDate(s[..|s| - 1], dateValue);
      assert s == s[..|s| - 1] + [s[|s| - 1]];
      InsertByDateSorted(init, s[|s| - 1], dateValue);
      InsertByDate(init, s[|s| - 1], dateValue)
  }

  lemma {:induction false} InsertByDateStable(s: seq<Event>, e: Event, d: int, dateValue: string -> int)
    ensures OnDate(InsertByDate(s, e, dateValue), d, dateValue)
         == OnDate(s, d, dateValue) + OnDate([e], d, dateValue)
  {
    if s == [] {
    } else {
      var last := s[|s| - 1];
      var init := s[..|s| - 1];
      assert s == init + [last];
      if dateValue(last.date) <= dateValue(e.date) {
        OnDateAppend(s, [e], d, dateValue);
      } else {
        InsertByDateStable(init, e, d, dateValue);
        OnDateAppend(InsertByDate(init, e, dateValue), [last], d, dateValue);
        OnDateAppend(init, [last], d, dateValue);
        assert OnDate([e], d, dateValue) == [] || OnDate([last], d, dateValue) == [];
      }
    }
  }

  /** Stability: among events with equal date values the sorted list keeps
      the order of the input. */
  lemma {:induction false} SortByDateStable(s: seq<Event>, d: int, dateValue: string -> int)
    ensures OnDate(SortByDate(s, dateValue), d, dateValue) == OnDate(s, d, dateValue)
  {
    if s != [] {
      var init, last := s[..|s| - 1], s[|s| - 1];
      assert s == init + [last];
      SortByDateStable(init, d, dateValue);
      InsertByDateStable(SortByDate(init, dateValue), last, d, dateValue);
      OnDateAppend(init, [last], d, dateValue);
    }
  }

  // ------------------------------------------------------------------- store

  class MemStorage {
    var faculty: Table<Faculty>
    var events: Table<Event>
    var programs: Table<Program>
    var galleryImages: Table<GalleryImage>
    var contacts: Table<Contact>
    var announcements: Table<Announcement>

    /** Every id any create has consumed. */
    ghost var issued: set<Id>

    function Snapshot(): Store
      reads this
    {
      Store(faculty, events, programs, galleryImages, contacts, announcements)
    }

    /** The tables are well-formed maps and hold only issued ids. That every
        record is stored under its own id (`Store.Valid`) is proved about the
        value each operation computes. */
    ghost predicate Valid()
      reads this
    {
      && Snapshot().WellFormed()
      && faculty.rows.Keys <= issued && events.rows.Keys <= issued
      && programs.rows.Keys <= issued && galleryImages.rows.Keys <= issued
      && contacts.rows.Keys <= issued && announcements.rows.Keys <= issued
    }

    /** `new MemStorage()`, which runs `seedData`: the six programs, then the
        three faculty members, then the three events, each created in fixture
        order with the next id of `seedIds`. */
    constructor (seedIds: seq<Id>)
      requires |seedIds| == SeedCount && NoDuplicates(seedIds)
      ensures Valid()
      ensures ProgramsSeeded(programs, DefaultPrograms, seedIds, 0)
      ensures FacultySeeded(faculty, DefaultFaculty, seedIds, FacultyFrom)
      ensures EventsSeeded(events, DefaultEvents, seedIds, EventsFrom)
      ensures galleryImages == Empty() && contacts == Empty() && announcements == Empty()
      ensures issued == IdsBetween(seedIds, 0, |seedIds|)
    {
      faculty, events, programs := Empty(), Empty(), Empty();
      galleryImages, contacts, announcements := Empty(), Empty(), Empty();
      issued := {};
      new;
      SeedPrograms(DefaultPrograms, seedIds, 0);
      SeedFaculty(DefaultFaculty, seedIds, FacultyFrom);
      SeedEvents(DefaultEvents, seedIds, EventsFrom);
      SeededIdsIssued(seedIds, programs, faculty, events, FacultyFrom, EventsFrom);
    }

    /** The first `forEach` of `seedData`: `createProgram` for each fixture program,
        taking ids from `ids[from..]`. */
    method SeedPrograms(inputs: seq<InsertProgram>, ids: seq<Id>, from: nat)
      requires Valid() && programs.order == []
      requires from + |inputs| <= |ids| && NoDuplicates(ids)
      requires forall j :: from <= j < |ids| ==> ids[j] !in issued
      modifies this`programs, this`issued
      ensures Valid() && issued == old(issued) + programs.rows.Keys
      ensures forall j :: from + |inputs| <= j < |ids| ==> ids[j] !in issued
      ensures ProgramsSeeded(programs, inputs, ids, from)
    {
      for i := 0 to |inputs|
        invariant programs.Valid() && programs.rows.Keys <= issued && old(issued) <= issued
        invariant forall x :: x in issued ==> x in old(issued) || x in programs.rows
        invariant forall j :: from + i <= j < |ids| ==> ids[j] !in issued
        invariant |programs.order| == i
        invariant forall j :: 0 <= j < i ==> programs.order[j] == ids[from + j]
        invariant forall j :: 0 <= j < i ==> programs.Get(ids[from + j]) == Some(inputs[j].WithId(ids[from + j]))
      {
        var _ := CreateProgram(inputs[i], ids[from + i]);
      }
    }

    /** The second `forEach` of `seedData`: `createFaculty` for each fixture member,
        taking ids from `ids[from..]`. */
    method SeedFaculty(inputs: seq<InsertFaculty>, ids: seq<Id>, from: nat)
      requires Valid() && faculty.order == []
      requires from + |inputs| <= |ids| && NoDuplicates(ids)
      requires forall j :: from <= j < |ids| ==> ids[j] !in issued
      modifies this`faculty, this`issued
      ensures Valid() && issued == old(issued) + faculty.rows.Keys
      ensures forall j :: from + |inputs| <= j < |ids| ==> ids[j] !in issued
      ensures FacultySeeded(faculty, inputs, ids, from)
    {
      for i := 0 to |inputs|
        invariant faculty.Valid() && faculty.rows.Keys <= issued && old(issued) <= issued
        invariant forall x :: x in issued ==> x in old(issued) || x in faculty.rows
        invariant forall j :: from + i <= j < |ids| ==> ids[j] !in issued
        invariant |faculty.order| == i
        invariant forall j :: 0 <= j < i ==> faculty.order[j] == ids[from + j]
        invariant forall j :: 0 <= j < i ==> faculty.Get(ids[from + j]) == Some(inputs[j].WithId(ids[from + j]))
      {
        var _ := CreateFaculty(inputs[i], ids[from + i]);
      }
    }

    /** The third `forEach` of `seedData`: `createEvent` for each fixture event,
        taking ids from `ids[from..]`. */
    method SeedEvents(inputs: seq<InsertEvent>, ids: seq<Id>, from: nat)
      requires Valid() && events.order == []
      requires from + |inputs| <= |ids| && NoDuplicates(ids)
      requires forall j :: from <= j < |ids| ==> ids[j] !in issued
      modifies this`events, this`issued
      ensures Valid() && issued == old(issued) + events.rows.Keys
      ensures forall j :: from + |inputs| <= j < |ids| ==> ids[j] !in issued
      ensures EventsSeeded(events, inputs, ids, from)
    {
      for i := 0 to |inputs|
        invariant events.Valid() && events.rows.Keys <= issued && old(issued) <= issued
        invariant forall x :: x in issued ==> x in old(issued) || x in events.rows
        invariant forall j :: from + i <= j < |ids| ==> ids[j] !in issued
        invariant |events.order| == i
        invariant forall j :: 0 <= j < i ==> events.order[j] == ids[from + j]
        invariant forall j :: 0 <= j < i ==> events.Get(ids[from + j]) == Some(inputs[j].WithId(ids[from + j]))
      {
        var _ := CreateEvent(inputs[i], ids[from + i]);
      }
    }

    // ---------------------------------------------------------------- faculty

    method GetFaculty() returns (r: seq<Faculty>)
      requires Valid()
      ensures r == faculty.Values()
    {
      r := faculty.Values();
    }

    method GetFacultyById(id: Id) returns (r: Option<Faculty>)
      ensures r == faculty.Get(id)
    {
      r := faculty.Get(id);
    }

    method CreateFaculty(input: InsertFaculty, id: Id) returns (f: Faculty)
      requires faculty.Valid() && faculty.rows.Keys <= issued && id !in issued
      modifies this`faculty, this`issued
      ensures faculty.Valid() && faculty.rows.Keys <= issued && issued == old(issued) + {id}
      ensures old(faculty).Get(id) == None
      ensures f == input.WithId(id) && faculty == old(faculty).Set(id, f)
      ensures faculty.order == old(faculty.order) + [id]
    {
      f := input.WithId(id);
      faculty := faculty.Set(id, f);
      issued := issued + {id};
    }

    method UpdateFaculty(id: Id, input: InsertFaculty) returns (r: Option<Faculty>)
      requires Valid()
      modifies this`faculty
      ensures Valid()
      ensures r.Some? <==> id in old(faculty).rows
      ensures r.None? ==> faculty == old(faculty)
      ensures r.Some? ==> r.value == input.WithId(id) && faculty == old(faculty).Set(id, r.value)
    {
      var existing := faculty.Get(id);
      if existing.None? {
        return None;
      }
      var updated := input.WithId(id);
      faculty := faculty.Set(id, updated);
      return Some(updated);
    }

    method DeleteFaculty(id: Id) returns (removed: bool)
      requires Valid()
      modifies this`faculty
      ensures Valid()
      ensures (faculty, removed) == old(faculty).Delete(id)
    {
      var res := faculty.Delete(id);
      faculty, removed := res.0, res.1;
    }

    // ----------------------------------------------------------------- events

    /** The events sorted by the value of their date. */
    method GetEvents(dateValue: string -> int) returns (r: seq<Event>)
      requires Valid()
      ensures r == SortByDate(events.Values(), dateValue)
      ensures SortedByDate(r, dateValue) && multiset(r) == multiset(events.Values())
    {
      r := SortByDate(events.Values(), dateValue);
    }

    method GetEventById(id: Id) returns (r: Option<Event>)
      ensures r == events.Get(id)
    {
      r := events.Get(id);
    }

    method CreateEvent(input: InsertEvent, id: Id) returns (e: Event)
      requires events.Valid() && events.rows.Keys <= issued && id !in issued
      modifies this`events, this`issued
      ensures events.Valid() && events.rows.Keys <= issued && issued == old(issued) + {id}
      ensures old(events).Get(id) == None
      ensures e == input.WithId(id) && events == old(events).Set(id, e)
      ensures events.order == old(events.order) + [id]
    {
      e := input.WithId(id);
      events := events.Set(id, e);
      issued := issued + {id};
    }

    method UpdateEvent(id: Id, input: InsertEvent) returns (r: Option<Event>)
      requires Valid()
      modifies this`events
      ensures Valid()
      ensures r.Some? <==> id in old(events).rows
      ensures r.None? ==> events == old(events)
      ensures r.Some? ==> r.value == input.WithId(id) && events == old(events).Set(id, r.value)
    {
      var existing := events.Get(id);
      if existing.None? {
        return None;
      }
      var updated := input.WithId(id);
      events := events.Set(id, updated);
      return Some(updated);
    }

    method DeleteEvent(id: Id) returns (removed: bool)
      requires Valid()
      modifies this`events
      ensures Valid()
      ensures (events, removed) == old(events).Delete(id)
    {
      var res := events.Delete(id);
      events, removed := res.0, res.1;
    }

    // --------------------------------------------------------------- programs

    method GetPrograms() returns (r: seq<Program>)
      requires Valid()
      ensures r == programs.Values()
    {
      r := programs.Values();
    }

    method GetProgramById(id: Id) returns (r: Option<Program>)
      ensures r == programs.Get(id)
    {
      r := programs.Get(id);
    }

    method CreateProgram(input: InsertProgram, id: Id) returns (p: Program)
      requires programs.Valid() && programs.rows.Keys <= issued && id !in issued
      modifies this`programs, this`issued
      ensures programs.Valid() && programs.rows.Keys <= issued && issued == old(issued) + {id}
      ensures old(programs).Get(id) == None
      ensures p == input.WithId(id) && programs == old(programs).Set(id, p)
      ensures programs.order == old(programs.order) + [id]
    {
      p := input.WithId(id);
      programs := programs.Set(id, p);
      issued := issued + {id};
    }

    method UpdateProgram(id: Id, input: InsertProgram) returns (r: Option<Program>)
      requires Valid()
      modifies this`programs
      ensures Valid()
      ensures r.Some? <==> id in old(programs).rows
      ensures r.None? ==> programs == old(programs)
      ensures r.Some? ==> r.value == input.WithId(id) && programs == old(programs).Set(id, r.value)
    {
      var existing := programs.Get(id);
      if existing.None? {
        return None;
      }
      var updated := input.WithId(id);
      programs := programs.Set(id, updated);
      return Some(updated);
    }

    method DeleteProgram(id: Id) returns (removed: bool)
      requires Valid()
      modifies this`programs
      ensures Valid()
      ensures (programs, removed) == old(programs).Delete(id)
    {
      var res := programs.Delete(id);
      programs, removed := res.0, res.1;
    }

    // --------------------------------------------------------- gallery images

    method GetGalleryImages() returns (r: seq<GalleryImage>)
      requires Valid()
      ensures r == galleryImages.Values()
    {
      r := galleryImages.Values();
    }

    method GetGalleryImageById(id: Id) returns (r: Option<GalleryImage>)
      ensures r == galleryImages.Get(id)
    {
      r := galleryImages.Get(id);
    }

    method CreateGalleryImage(input: InsertGalleryImage, id: Id) returns (g: GalleryImage)
      requires galleryImages.Valid() && galleryImages.rows.Keys <= issued && id !in issued
      modifies this`galleryImages, this`issued
      ensures galleryImages.Valid() && galleryImages.rows.Keys <= issued && issued == old(issued) + {id}
      ensures old(galleryImages).Get(id) == None
      ensures g == input.WithId(id) && galleryImages == old(galleryImages).Set(id, g)
    {
      g := input.WithId(id);
      galleryImages := galleryImages.Set(id, g);
      issued := issued + {id};
    }

    method DeleteGalleryImage(id: Id) returns (removed: bool)
      requires Valid()
      modifies this`galleryImages
      ensures Valid()
      ensures (galleryImages, removed) == old(galleryImages).Delete(id)
    {
      var res := galleryImages.Delete(id);
      galleryImages, removed := res.0, res.1;
    }

    // --------------------------------------------------------------- contacts

    method GetContacts() returns (r: seq<Contact>)
      requires Valid()
      ensures r == contacts.Values()
    {
      r := contacts.Values();
    }

    /** Stores the contact with the server's timestamp `now` as `createdAt`. */
    method CreateContact(input: InsertContact, id: Id, now: string) returns (c: Contact)
      requires contacts.Valid() && contacts.rows.Keys <= issued && id !in issued
      modifies this`contacts, this`issued
      ensures contacts.Valid() && contacts.rows.Keys <= issued && issued == old(issued) + {id}
      ensures old(contacts).Get(id) == None
      ensures c == input.WithId(id, now) && contacts == old(contacts).Set(id, c)
    {
      c := input.WithId(id, now);
      contacts := contacts.Set(id, c);
      issued := issued + {id};
    }

    // ---------------------------------------------------------- announcements

    method GetAnnouncements() returns (r: seq<Announcement>)
      requires Valid()
      ensures r == announcements.Values()
    {
      r := announcements.Values();
    }

    method CreateAnnouncement(input: InsertAnnouncement, id: Id) returns (a: Announcement)
      requires announcements.Valid() && announcements.rows.Keys <= issued && id !in issued
      modifies this`announcements, this`issued
      ensures announcements.Valid() && announcements.rows.Keys <= issued && issued == old(issued) + {id}
      ensures old(announcements).Get(id) == None
      ensures a == input.WithId(id) && announcements == old(announcements).Set(id, a)
    {
      a := input.WithId(id);
      announcements := announcements.Set(id, a);
      issued := issued + {id};
    }

    method DeleteAnnouncement(id: Id) returns (removed: bool)
      requires Valid()
      modifies this`announcements
      ensures Valid()
      ensures (announcements, removed) == old(announcements).Delete(id)
    {
      var res := announcements.Delete(id);
      announcements, removed := res.0, res.1;
    }
  }
}
