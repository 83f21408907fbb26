/** The JSON API `registerRoutes` installs over the store.

    Every handler runs its storage call inside one `try`; what it answers
    depends only on which operation it performs, whether the call returned or
    threw, and what it returned. That decision is the pure part (`ListReply`
    … `DeleteReply`). `TableApi` is what one resource's handlers do to its
    table, as a function; `Api` routes a request to it; the `Handle…` methods
    do the same through the storage object's methods, and are proved to agree
    with `Api`. */
module Routes {
  import opened Wrappers
  import opened Sequences
  import opened JsonValues
  import opened Schema
  import opened Tables
  import opened Storage

  // ----------------------------------------------------------------- requests

  datatype Verb = GET | POST | PATCH | DELETE

  /** A request as the handlers see it: the path split at `/`, so
      `/api/faculty/42` is `["api", "faculty", "42"]`, and the parsed body. */
  datatype Request = Request(verb: Verb, path: seq<string>, body: Json)

  /** `NotRouted`: none of these handlers matches the request. Otherwise the
      status and the body: none for `res.status(204).send()`. */
  datatype Response = NotRouted | Reply(status: int, body: Option<Json>)

  /** The five resources with routes. Announcements have none. */
  datatype Kind = FacultyKind | EventsKind | ProgramsKind | GalleryKind | ContactsKind

  datatype Op = List | Fetch(id: Id) | Create | Update(id: Id) | Remove(id: Id)

  function ResourceOf(name: string): (k: Option<Kind>)
    ensures k.Some? <==> name in {"faculty", "events", "programs", "gallery", "contacts"}
    ensures k.Some? ==> NameOf(k.value) == name
  {
    match name
    case "faculty" => Some(FacultyKind)
    case "events" => Some(EventsKind)
    case "programs" => Some(ProgramsKind)
    case "gallery" => Some(GalleryKind)
    case "contacts" => Some(ContactsKind)
    case _ => None
  }

  /** The routes that exist: list and create everywhere, get-by-id and update
      for faculty, events and programs, delete everywhere but contacts. */
  predicate HasRoute(k: Kind, op: Op) {
    match op
    case List => true
    case Create => true
    case Fetch(_) => k in {FacultyKind, EventsKind, ProgramsKind}
    case Update(_) => k in {FacultyKind, EventsKind, ProgramsKind}
    case Remove(_) => k != ContactsKind
  }

  /** Which handler, if any, `app.get("/api/<name>")`, `app.get("/api/<name>/:id")`
      and the rest match; `:id` matches any non-empty segment. */
  function Route(req: Request): (r: Option<(Kind, Op)>)
    ensures r.Some? ==> HasRoute(r.value.0, r.value.1)
  {
    if !(2 <= |req.path| <= 3) || req.path[0] != "api" then None
    else
      var kind :- ResourceOf(req.path[1]);
      var op :-
        if |req.path| == 2 then
          match req.verb
          case GET => Some(List)
          case POST => Some(Create)
          case _ => None
        else if req.path[2] == "" then None
        else
          match req.verb
          case GET => Some(Fetch(req.path[2]))
          case PATCH => Some(Update(req.path[2]))
          case DELETE => Some(Remove(req.path[2]))
          case POST => None;
      if HasRoute(kind, op) then Some((kind, op)) else None
  }

  // --------------------------------------------------------------- decisions

  /** What the storage call in a handler's `try` did. */
  datatype Attempt<T> = Threw | Returned(value: T)

  /** The `{ error }` texts of one resource's handlers. */
  datatype Messages = Messages(
    fetchAll: string, fetchOne: string, notFound: string, invalid: string, deleteFailed: string)

  /** The texts as the handlers write them; a text no route of that resource
      uses is empty. */
  function MessagesOf(k: Kind): Messages {
    match k
    case FacultyKind => Messages("Failed to fetch faculty", "Failed to fetch faculty member",
      "Faculty member not found", "Invalid faculty data", "Failed to delete faculty member")
    case EventsKind => Messages("Failed to fetch events", "Failed to fetch event",
      "Event not found", "Invalid event data", "Failed to delete event")
    case ProgramsKind => Messages("Failed to fetch programs", "Failed to fetch program",
      "Program not found", "Invalid program data", "Failed to delete program")
    case GalleryKind => Messages("Failed to fetch gallery images", "",
      "Image not found", "Invalid image data", "Failed to delete image")
    case ContactsKind => Messages("Failed to fetch contacts", "", "", "Invalid contact data", "")
  }

  function Failure(status: int, message: string): Response {
    Reply(status, Some(ErrorJson(message)))
  }

  /** `GET /api/<name>`. */
  function ListReply(a: Attempt<seq<Json>>, m: Messages): (r: Response)
    ensures r.Reply? && r.body.Some?
    ensures r.status == 200 <==> a.Returned?
    ensures a.Returned? ==> r.body.value == JArr(a.value)
    ensures a.Threw? ==> r == Failure(500, m.fetchAll)
  {
    match a
    case Threw => Failure(500, m.fetchAll)
    case Returned(items) => Reply(200, Some(JArr(items)))
  }

  /** `GET /api/<name>/:id`: a missing record is a 404. */
  function FetchReply(a: Attempt<Option<Json>>, m: Messages): (r: Response)
    ensures r.Reply? && r.body.Some?
    ensures r.status == 200 <==> a.Returned? && a.value.Some?
    ensures r.status == 200 ==> r.body == a.value
    ensures a == Returned(None) ==> r == Failure(404, m.notFound)
    ensures a.Threw? ==> r == Failure(500, m.fetchOne)
  {
    match a
    case Threw => Failure(500, m.fetchOne)
    case Returned(None) => Failure(404, m.notFound)
    case Returned(Some(j)) => Reply(200, Some(j))
  }

  /** `POST /api/<name>`: validation runs inside the `try`, so a body that
      fails it is one more way to throw, and every throw is a 400. */
  function CreateReply(a: Attempt<Json>, m: Messages): (r: Response)
    ensures r.Reply? && r.body.Some?
    ensures r.status == 201 <==> a.Returned?
    ensures a.Returned? ==> r.body.value == a.value
    ensures a.Threw? ==> r == Failure(400, m.invalid)
  {
    match a
    case Threw => Failure(400, m.invalid)
    case Returned(j) => Reply(201, Some(j))
  }

  /** `PATCH /api/<name>/:id`: a throw is a 400, a missing record a 404. */
  function UpdateReply(a: Attempt<Option<Json>>, m: Messages): (r: Response)
    ensures r.Reply? && r.body.Some?
    ensures r.status == 200 <==> a.Returned? && a.value.Some?
    ensures r.status == 200 ==> r.body == a.value
    ensures a == Returned(None) ==> r == Failure(404, m.notFound)
    ensures a.Threw? ==> r == Failure(400, m.invalid)
  {
    match a
    case Threw => Failure(400, m.invalid)
    case Returned(None) => Failure(404, m.notFound)
    case Returned(Some(j)) => Reply(200, Some(j))
  }

  /** `DELETE /api/<name>/:id`: 204 with no body when something was removed. */
  function DeleteReply(a: Attempt<bool>, m: Messages): (r: Response)
    ensures r.Reply?
    ensures r.status == 204 <==> a == Returned(true)
    ensures r.body.None? <==> r.status == 204
    ensures a == Returned(false) ==> r == Failure(404, m.notFound)
    ensures a.Threw? ==> r == Failure(500, m.deleteFailed)
  {
    match a
    case Threw => Failure(500, m.deleteFailed)
    case Returned(false) => Failure(404, m.notFound)
    case Returned(true) => Reply(204, None)
  }

  // ------------------------------------------------------- one resource's API

  /** What one resource's handlers need: the insert schema's `parse`, the
      record a create or update stores, the JSON `res.json` sends for a
      record, the order a listing is returned in, and the error texts. */
  datatype Handlers<!I, !R> = Handlers(
    parse: Json -> Option<I>,
    stamp: (I, Id) -> R,
    render: R -> Json,
    arrange: seq<R> -> seq<R>,
    messages: Messages)

  function FacultyHandlers(): Handlers<InsertFaculty, Faculty> {
    Handlers(ParseInsertFaculty, (i: InsertFaculty, id: Id) => i.WithId(id),
      (f: Faculty) => f.ToJson(), (xs: seq<Faculty>) => xs, MessagesOf(FacultyKind))
  }

  /** Event listings are sorted by date. */
  function EventHandlers(dateValue: string -> int): Handlers<InsertEvent, Event> {
    Handlers(ParseInsertEvent, (i: InsertEvent, id: Id) => i.WithId(id),
      (e: Event) => e.ToJson(), (xs: seq<Event>) => SortByDate(xs, dateValue), MessagesOf(EventsKind))
  }

  function ProgramHandlers(): Handlers<InsertProgram, Program> {
    Handlers(ParseInsertProgram, (i: InsertProgram, id: Id) => i.WithId(id),
      (p: Program) => p.ToJson(), (xs: seq<Program>) => xs, MessagesOf(ProgramsKind))
  }

  function GalleryHandlers(): Handlers<InsertGalleryImage, GalleryImage> {
    Handlers(ParseInsertGalleryImage, (i: InsertGalleryImage, id: Id) => i.WithId(id),
      (g: GalleryImage) => g.ToJson(), (xs: seq<GalleryImage>) => xs, MessagesOf(GalleryKind))
  }

  /** A contact is stamped with the server clock's `now`. */
  function ContactHandlers(now: string): Handlers<InsertContact, Contact> {
    Handlers(ParseInsertContact, (i: InsertContact, id: Id) => i.WithId(id, now),
      (c: Contact) => c.ToJson(), (xs: seq<Contact>) => xs, MessagesOf(ContactsKind))
  }

  /** The table after `op` and the response, for a store that never throws;
      a create stores its record under `freshId`. The table stays a
      well-formed map, gains no key but the fresh id, and is untouched by a
      listing or a get; every request gets a reply. */
  function TableApi<I, R>(t: Table<R>, op: Op, body: Json, freshId: Id, h: Handlers<I, R>): (r: (Table<R>, Response))
    requires t.Valid()
    ensures r.0.Valid() && r.0.rows.Keys <= t.rows.Keys + {freshId}
    ensures op.List? || op.Fetch? ==> r.0 == t
    ensures r.1.Reply?
  {
    match op
    case List => (t, ListReply(Returned(Map(h.render, h.arrange(t.Values()))), h.messages))
    case Fetch(id) =>
      (t, FetchReply(Returned(if id in t.rows then Some(h.render(t.rows[id])) else None), h.messages))
    case Create =>
      if h.parse(body).None? then (t, CreateReply(Threw, h.messages))
      else
        var r := h.stamp(h.parse(body).value, freshId);
        (t.Set(freshId, r), CreateReply(Returned(h.render(r)), h.messages))
    case Update(id) =>
      if h.parse(body).None? then (t, UpdateReply(Threw, h.messages))
      else if id in t.rows then
        var r := h.stamp(h.parse(body).value, id);
        (t.Set(id, r), UpdateReply(Returned(Some(h.render(r))), h.messages))
      else (t, UpdateReply(Returned(None), h.messages))
    case Remove(id) =>
      var d := t.Delete(id);
      (d.0, DeleteReply(Returned(d.1), h.messages))
  }

  /** The whole API: the routed resource's table changes as `TableApi` says,
      every other table stays as it was. The store stays well formed, and
      exactly the routed requests get a reply. */
  function Api(s: Store, req: Request, freshId: Id, now: string, dateValue: string -> int): (r: (Store, Response))
    requires s.WellFormed()
    ensures r.0.WellFormed()
    ensures r.1.NotRouted? <==> Route(req).None?
    ensures Route(req).None? ==> r.0 == s
  {
    match Route(req)
    case None => (s, NotRouted)
    case Some((kind, op)) =>
      match kind
      case FacultyKind =>
        var (t, r) := TableApi(s.faculty, op, req.body, freshId, FacultyHandlers());
        (s.(faculty := t), r)
      case EventsKind =>
        var (t, r) := TableApi(s.events, op, req.body, freshId, EventHandlers(dateValue));
        (s.(events := t), r)
      case ProgramsKind =>
        var (t, r) := TableApi(s.programs, op, req.body, freshId, ProgramHandlers());
        (s.(programs := t), r)
      case GalleryKind =>
        var (t, r) := TableApi(s.galleryImages, op, req.body, freshId, GalleryHandlers());
        (s.(galleryImages := t), r)
      case ContactsKind =>
        var (t, r) := TableApi(s.contacts, op, req.body, freshId, ContactHandlers(now));
        (s.(contacts := t), r)
  }

  // ------------------------------------------------------------ the handlers

  method HandleFaculty(st: MemStorage, op: Op, body: Json, freshId: Id) returns (resp: Response)
    requires st.Valid() && freshId !in st.issued
    modifies st`faculty, st`issued
    ensures st.Valid()
    ensures st.issued <= old(st.issued) + {freshId}
    ensures (st.faculty, resp) == TableApi(old(st.faculty), op, body, freshId, FacultyHandlers())
  {
    var h := FacultyHandlers();
    match op
    case List =>
      var xs := st.GetFaculty();
      resp := ListReply(Returned(Map(h.render, xs)), h.messages);
    case Fetch(id) =>
      var found := st.GetFacultyById(id);
      resp := FetchReply(Returned(if found.Some? then Some(h.render(found.value)) else None), h.messages);
    case Create =>
      var parsed := ParseInsertFaculty(body);
      if parsed.None? {
        resp := CreateReply(Threw, h.messages);
      } else {
        var f := st.CreateFaculty(parsed.value, freshId);
        resp := CreateReply(Returned(h.render(f)), h.messages);
      }
    case Update(id) =>
      var parsed := ParseInsertFaculty(body);
      if parsed.None? {
        resp := UpdateReply(Threw, h.messages);
      } else {
        var updated := st.UpdateFaculty(id, parsed.value);
        resp := UpdateReply(Returned(if updated.Some? then Some(h.render(updated.value)) else None), h.messages);
      }
    case Remove(id) =>
      var removed := st.DeleteFaculty(id);
      resp := DeleteReply(Returned(removed), h.messages);
  }

  method HandleEvents(st: MemStorage, op: Op, body: Json, freshId: Id, dateValue: string -> int)
    returns (resp: Response)
    requires st.Valid() && freshId !in st.issued
    modifies st`events, st`issued
    ensures st.Valid()
    ensures st.issued <= old(st.issued) + {freshId}
    ensures (st.events, resp) == TableApi(old(st.events), op, body, freshId, EventHandlers(dateValue))
  {
    var h := EventHandlers(dateValue);
    match op
    case List =>
      var xs := st.GetEvents(dateValue);
      resp := ListReply(Returned(Map(h.render, xs)), h.messages);
    case Fetch(id) =>
      var found := st.GetEventById(id);
      resp := FetchReply(Returned(if found.Some? then Some(h.render(found.value)) else None), h.messages);
    case Create =>
      var parsed := ParseInsertEvent(body);
      if parsed.None? {
        resp := CreateReply(Threw, h.messages);
      } else {
        var e := st.CreateEvent(parsed.value, freshId);
        resp := CreateReply(Returned(h.render(e)), h.messages);
      }
    case Update(id) =>
      var parsed := ParseInsertEvent(body);
      if parsed.None? {
        resp := UpdateReply(Threw, h.messages);
      } else {
        var updated := st.UpdateEvent(id, parsed.value);
        resp := UpdateReply(Returned(if updated.Some? then Some(h.render(updated.value)) else None), h.messages);
      }
    case Remove(id) =>
      var removed := st.DeleteEvent(id);
      resp := DeleteReply(Returned(removed), h.messages);
  }

  method HandlePrograms(st: MemStorage, op: Op, body: Json, freshId: Id) returns (resp: Response)
    requires st.Valid() && freshId !in st.issued
    modifies st`programs, st`issued
    ensures st.Valid()
    ensures st.issued <= old(st.issued) + {freshId}
    ensures (st.programs, resp) == TableApi(old(st.programs), op, body, freshId, ProgramHandlers())
  {
    var h := ProgramHandlers();
    match op
    case List =>
      var xs := st.GetPrograms();
      resp := ListReply(Returned(Map(h.render, xs)), h.messages);
    case Fetch(id) =>
      var found := st.GetProgramById(id);
      resp := FetchReply(Returned(if found.Some? then Some(h.render(found.value)) else None), h.messages);
    case Create =>
      var parsed := ParseInsertProgram(body);
      if parsed.None? {
        resp := CreateReply(Threw, h.messages);
      } else {
        var p := st.CreateProgram(parsed.value, freshId);
        resp := CreateReply(Returned(h.render(p)), h.messages);
      }
    case Update(id) =>
      var parsed := ParseInsertProgram(body);
      if parsed.None? {
        resp := UpdateReply(Threw, h.messages);
      } else {
        var updated := st.UpdateProgram(id, parsed.value);
        resp := UpdateReply(Returned(if updated.Some? then Some(h.render(updated.value)) else None), h.messages);
      }
    case Remove(id) =>
      var removed := st.DeleteProgram(id);
      resp := DeleteReply(Returned(removed), h.messages);
  }

  /** Gallery images have list, create and delete routes only. */
  method HandleGallery(st: MemStorage, op: Op, body: Json, freshId: Id) returns (resp: Response)
    requires st.Valid() && freshId !in st.issued && HasRoute(GalleryKind, op)
    modifies st`galleryImages, st`issued
    ensures st.Valid()
    ensures st.issued <= old(st.issued) + {freshId}
    ensures (st.galleryImages, resp) == TableApi(old(st.galleryImages), op, body, freshId, GalleryHandlers())
  {
    var h := GalleryHandlers();
    match op
    case List =>
      var xs := st.GetGalleryImages();
      resp := ListReply(Returned(Map(h.render, xs)), h.messages);
    case Create =>
      var parsed := ParseInsertGalleryImage(body);
      if parsed.None? {
        resp := CreateReply(Threw, h.messages);
      } else {
        var g := st.CreateGalleryImage(parsed.value, freshId);
        resp := CreateReply(Returned(h.render(g)), h.messages);
      }
    case Remove(id) =>
      var removed := st.DeleteGalleryImage(id);
      resp := DeleteReply(Returned(removed), h.messages);
  }

  /** Contacts have list and create routes only; `now` is the server clock. */
  method HandleContacts(st: MemStorage, op: Op, body: Json, freshId: Id, now: string) returns (resp: Response)
    requires st.Valid() && freshId !in st.issued && HasRoute(ContactsKind, op)
    modifies st`contacts, st`issued
    ensures st.Valid()
    ensures st.issued <= old(st.issued) + {freshId}
    ensures (st.contacts, resp) == TableApi(old(st.contacts), op, body, freshId, ContactHandlers(now))
  {
    var h := ContactHandlers(now);
    match op
    case List =>
      var xs := st.GetContacts();
      resp := ListReply(Returned(Map(h.render, xs)), h.messages);
    case Create =>
      var parsed := ParseInsertContact(body);
      if parsed.None? {
        resp := CreateReply(Threw, h.messages);
      } else {
        var c := st.CreateContact(parsed.value, freshId, now);
        resp := CreateReply(Returned(h.render(c)), h.messages);
      }
  }

  /** One request against the store. `freshId` is what `randomUUID` would
      return, used only by a create; `now` and `dateValue` are the clock and
      the date parse. */
  method Handle(st: MemStorage, req: Request, freshId: Id, now: string, dateValue: string -> int)
    returns (resp: Response)
    requires st.Valid() && freshId !in st.issued
    modifies st
    ensures st.Valid()
    ensures st.issued <= old(st.issued) + {freshId}
    ensures (st.Snapshot(), resp) == Api(old(st.Snapshot()), req, freshId, now, dateValue)
  {
    var route := Route(req);
    if route.None? {
      return NotRouted;
    }
    var kind, op := route.value.0, route.value.1;
    match kind
    case FacultyKind => resp := HandleFaculty(st, op, req.body, freshId);
    case EventsKind => resp := HandleEvents(st, op, req.body, freshId, dateValue);
    case ProgramsKind => resp := HandlePrograms(st, op, req.body, freshId);
    case GalleryKind => resp := HandleGallery(st, op, req.body, freshId);
    case ContactsKind => resp := HandleContacts(st, op, req.body, freshId, now);
  }

  /** A valid `POST /api/programs` stores the new program and answers 201 with it. */
  lemma PostProgramCreates(s: Store, body: Json, freshId: Id, now: string, dateValue: string -> int)
    requires s.WellFormed() && ParseInsertProgram(body).Some?
    ensures var created := ParseInsertProgram(body).value.WithId(freshId);
      var (s', resp) := Api(s, Request(POST, ["api", "programs"], body), freshId, now, dateValue);
      && s'.programs == s.programs.Set(freshId, created)
      && resp == Reply(201, Some(created.ToJson()))
  {
    assert Route(Request(POST, ["api", "programs"], body)) == Some((ProgramsKind, Create));
  }

  /** A fresh store, then one valid `POST /api/programs`: the create is a 201
      with the new record, and the listing grows from the six fixture
      programs to seven, the new one last. */
  method PostProgramAfterSeeding(seedIds: seq<Id>, freshId: Id, body: Json)
    returns (resp: Response, listing: seq<Program>)
    requires |seedIds| == SeedCount && NoDuplicates(seedIds) && freshId !in seedIds
    requires ParseInsertProgram(body).Some?
    ensures var created := ParseInsertProgram(body).value.WithId(freshId);
      && resp == Reply(201, Some(created.ToJson()))
      && |listing| == |DefaultPrograms| + 1
      && listing[|DefaultPrograms|] == created
    ensures forall j :: 0 <= j < |DefaultPrograms| ==> listing[j] == DefaultPrograms[j].WithId(seedIds[j])
  {
    var st := new MemStorage(seedIds);
    IdsBetweenAreIds(seedIds, 0, |seedIds|);
    var seeded := st.programs;
    SeededProgramsListed(seeded, DefaultPrograms, seedIds, 0);
    assert freshId !in seeded.rows;
    var created := ParseInsertProgram(body).value.WithId(freshId);
    ghost var before := st.Snapshot();
    PostProgramCreates(before, body, freshId, "", (d: string) => 0);
    resp := Handle(st, Request(POST, ["api", "programs"], body), freshId, "", (d: string) => 0);
    SetNewAppends(seeded, freshId, created);
    listing := st.GetPrograms();
  }

  // ------------------------------------------------------------ route table

  /** The path segment each resource is mounted under. */
  function NameOf(k: Kind): string {
    match k
    case FacultyKind => "faculty"
    case EventsKind => "events"
    case ProgramsKind => "programs"
    case GalleryKind => "gallery"
    case ContactsKind => "contacts"
  }

  /** The verb and path each `app.get`/`app.post`/`app.patch`/`app.delete`
      registration answers. */
  function Endpoint(k: Kind, op: Op): (Verb, seq<string>) {
    match op
    case List => (GET, ["api", NameOf(k)])
    case Create => (POST, ["api", NameOf(k)])
    case Fetch(id) => (GET, ["api", NameOf(k), id])
    case Update(id) => (PATCH, ["api", NameOf(k), id])
    case Remove(id) => (DELETE, ["api", NameOf(k), id])
  }

  predicate HasNonEmptyId(op: Op) {
    !op.List? && !op.Create? ==> op.id != ""
  }

  /** Every registered route is reached by its own verb and path. */
  lemma RouteFindsEndpoint(k: Kind, op: Op, body: Json)
    requires HasRoute(k, op) && HasNonEmptyId(op)
    ensures Route(Request(Endpoint(k, op).0, Endpoint(k, op).1, body)) == Some((k, op))
  {
  }

  /** A request is routed only to the registration whose verb and path it has. */
  lemma RouteOnlyEndpoints(req: Request)
    requires Route(req).Some?
    ensures HasRoute(Route(req).value.0, Route(req).value.1)
    ensures HasNonEmptyId(Route(req).value.1)
    ensures (req.verb, req.path) == Endpoint(Route(req).value.0, Route(req).value.1)
  {
    var p := req.path;
    if |p| == 2 {
      assert p == [p[0], p[1]];
    } else {
      assert p == [p[0], p[1], p[2]];
    }
  }

  /** No route serves announcements, and the gallery has no get-by-id or
      update route, nor the contacts any route with an id. */
  lemma UnroutedRequests(verb: Verb, id: string, body: Json)
    ensures Route(Request(verb, ["api", "announcements"], body)) == None
    ensures Route(Request(verb, ["api", "announcements", id], body)) == None
    ensures Route(Request(GET, ["api", "gallery", id], body)) == None
    ensures Route(Request(PATCH, ["api", "gallery", id], body)) == None
    ensures Route(Request(verb, ["api", "contacts", id], body)) == None
  {
    if Route(Request(verb, ["api", "announcements"], body)).Some? {
      RouteOnlyEndpoints(Request(verb, ["api", "announcements"], body));
    }
  }

  // ----------------------------------------------- one resource's behaviour

  /** A body the insert schema rejects is a 400 with the resource's
      "Invalid … data" text, and nothing is stored. */
  lemma InvalidBodyRejected<I, R>(t: Table<R>, op: Op, body: Json, freshId: Id, h: Handlers<I, R>)
    requires t.Valid() && (op.Create? || op.Update?) && h.parse(body).None?
    ensures TableApi(t, op, body, freshId, h) == (t, Failure(400, h.messages.invalid))
  {
  }

  /** A valid create stores the stamped record under the fresh id, lists it
      last, and answers 201 with it. */
  lemma CreateStores<I, R>(t: Table<R>, body: Json, freshId: Id, h: Handlers<I, R>)
    requires t.Valid() && freshId !in t.rows && h.parse(body).Some?
    ensures var (t', resp) := TableApi(t, Create, body, freshId, h);
      var r := h.stamp(h.parse(body).value, freshId);
      && t'.rows == t.rows[freshId := r]
      && t'.Values() == t.Values() + [r]
      && resp == Reply(201, Some(h.render(r)))
  {
    SetNewAppends(t, freshId, h.stamp(h.parse(body).value, freshId));
  }

  /** Get-by-id answers 200 with the record when the id is stored, 404 with
      the resource's "not found" text when it is not, and changes nothing. */
  lemma FetchOutcome<I, R>(t: Table<R>, id: Id, body: Json, freshId: Id, h: Handlers<I, R>)
    requires t.Valid()
    ensures TableApi(t, Fetch(id), body, freshId, h).0 == t
    ensures id in t.rows ==> TableApi(t, Fetch(id), body, freshId, h).1 == Reply(200, Some(h.render(t.rows[id])))
    ensures id !in t.rows ==> TableApi(t, Fetch(id), body, freshId, h).1 == Failure(404, h.messages.notFound)
  {
  }

  /** A record just created is found by its id. */
  lemma CreateThenFetch<I, R>(t: Table<R>, body: Json, freshId: Id, h: Handlers<I, R>)
    requires t.Valid() && h.parse(body).Some?
    ensures var t' := TableApi(t, Create, body, freshId, h).0;
      t'.Valid() && TableApi(t', Fetch(freshId), body, freshId, h).1
        == Reply(200, Some(h.render(h.stamp(h.parse(body).value, freshId))))
  {
  }

  /** A valid update of a stored id replaces its record where it stands and
      answers 200; of an absent id it answers 404 and stores nothing. */
  lemma UpdateOutcome<I, R>(t: Table<R>, id: Id, body: Json, freshId: Id, h: Handlers<I, R>)
    requires t.Valid() && h.parse(body).Some?
    ensures var (t', resp) := TableApi(t, Update(id), body, freshId, h);
      var r := h.stamp(h.parse(body).value, id);
      && (id in t.rows ==> t'.rows == t.rows[id := r] && t'.order == t.order && resp == Reply(200, Some(h.render(r))))
      && (id !in t.rows ==> t' == t && resp == Failure(404, h.messages.notFound))
  {
  }

  /** Delete answers 204 exactly when the id was stored, and then only that
      record is gone; otherwise it answers 404. */
  lemma RemoveOutcome<I, R>(t: Table<R>, id: Id, body: Json, freshId: Id, h: Handlers<I, R>)
    requires t.Valid()
    ensures var (t', resp) := TableApi(t, Remove(id), body, freshId, h);
      && t'.Valid() && t'.rows == t.rows - {id}
      && (resp == Reply(204, None) <==> id in t.rows)
      && (id !in t.rows ==> resp == Failure(404, h.messages.notFound))
  {
  }

  /** After a delete, get-by-id and a second delete of the same id are 404s. */
  lemma RemoveThenFetch<I, R>(t: Table<R>, id: Id, body: Json, freshId: Id, h: Handlers<I, R>)
    requires t.Valid()
    ensures var t' := TableApi(t, Remove(id), body, freshId, h).0;
      && t'.Valid()
      && TableApi(t', Fetch(id), body, freshId, h).1 == Failure(404, h.messages.notFound)
      && TableApi(t', Remove(id), body, freshId, h).1 == Failure(404, h.messages.notFound)
  {
    RemoveOutcome(t, id, body, freshId, h);
  }

  /** The store never throws, so no handler answers 500: every response is
      one of 200, 201, 204, 400 and 404, and only a valid create is a 201. */
  lemma TableApiOutcomes<I, R>(t: Table<R>, op: Op, body: Json, freshId: Id, h: Handlers<I, R>)
    requires t.Valid()
    ensures var resp := TableApi(t, op, body, freshId, h).1;
      && resp.status in {200, 201, 204, 400, 404}
      && (resp.status == 201 <==> op.Create? && h.parse(body).Some?)
  {
  }

  /** `key` reads the id a record carries. */
  ghost predicate Keyed<R>(t: Table<R>, key: R -> Id) {
    forall k :: k in t.rows ==> key(t.rows[k]) == k
  }

  /** One instance of the stamping rule, for an input that comes out of `parse`. */
  lemma StampCarriesId<I, R>(h: Handlers<I, R>, key: R -> Id, input: I, id: Id)
    requires forall i, id :: key(h.stamp(i, id)) == id
    ensures key(h.stamp(input, id)) == id
  {
  }

  /** When a handler stamps every record with the id it is stored under, every
      operation keeps records stored under their own ids. */
  lemma TableApiKeepsKeyed<I, R>(t: Table<R>, op: Op, body: Json, freshId: Id, h: Handlers<I, R>, key: R -> Id)
    requires t.Valid() && Keyed(t, key)
    requires forall i, id :: key(h.stamp(i, id)) == id
    ensures Keyed(TableApi(t, op, body, freshId, h).0, key)
  {
    var t' := TableApi(t, op, body, freshId, h).0;
    forall k | k in t'.rows ensures key(t'.rows[k]) == k {
      match op
      case Create =>
        if k == freshId && h.parse(body).Some? {
          StampCarriesId(h, key, h.parse(body).value, freshId);
        }
      case Update(id) =>
        if k == id && h.parse(body).Some? && id in t.rows {
          StampCarriesId(h, key, h.parse(body).value, id);
        }
      case _ =>
    }
  }

  // -------------------------------------------------------------- whole API

  /** A request changes at most the table of the resource it is routed to;
      announcements never change, and an unrouted request changes nothing. */
  lemma ApiFrame(s: Store, req: Request, freshId: Id, now: string, dateValue: string -> int)
    requires s.WellFormed()
    ensures var s' := Api(s, req, freshId, now, dateValue).0;
      && s'.announcements == s.announcements
      && (Route(req).None? || Route(req).value.0 != FacultyKind ==> s'.faculty == s.faculty)
      && (Route(req).None? || Route(req).value.0 != EventsKind ==> s'.events == s.events)
      && (Route(req).None? || Route(req).value.0 != ProgramsKind ==> s'.programs == s.programs)
      && (Route(req).None? || Route(req).value.0 != GalleryKind ==> s'.galleryImages == s.galleryImages)
      && (Route(req).None? || Route(req).value.0 != ContactsKind ==> s'.contacts == s.contacts)
  {
  }

  /** Every request keeps every record stored under its own id. */
  lemma ApiKeepsValid(s: Store, req: Request, freshId: Id, now: string, dateValue: string -> int)
    requires s.Valid()
    ensures Api(s, req, freshId, now, dateValue).0.Valid()
  {
    ApiFrame(s, req, freshId, now, dateValue);
    if Route(req).Some? {
      var (k, op) := Route(req).value;
      match k
      case FacultyKind =>
        var key := (f: Faculty) => f.id;
        assert Keyed(s.faculty, key);
        TableApiKeepsKeyed(s.faculty, op, req.body, freshId, FacultyHandlers(), key);
      case EventsKind =>
        var key := (e: Event) => e.id;
        assert Keyed(s.events, key);
        TableApiKeepsKeyed(s.events, op, req.body, freshId, EventHandlers(dateValue), key);
      case ProgramsKind =>
        var key := (p: Program) => p.id;
        assert Keyed(s.programs, key);
        TableApiKeepsKeyed(s.programs, op, req.body, freshId, ProgramHandlers(), key);
      case GalleryKind =>
        var key := (g: GalleryImage) => g.id;
        assert Keyed(s.galleryImages, key);
        TableApiKeepsKeyed(s.galleryImages, op, req.body, freshId, GalleryHandlers(), key);
      case ContactsKind =>
        var key := (c: Contact) => c.id;
        assert Keyed(s.contacts, key);
        TableApiKeepsKeyed(s.contacts, op, req.body, freshId, ContactHandlers(now), key);
    }
  }
}
