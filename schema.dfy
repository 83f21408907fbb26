/** The six table definitions of the school site's shared schema, the record
    types a select yields, the insert shapes the API validates against, and the
    validation itself.

    drizzle-zod's `createInsertSchema(table)` turns every column into one rule:
    a not-null column without a default is required, a nullable column may be
    omitted or null, and a column with a default may be omitted. `.omit(...)`
    drops keys altogether, and `parse` strips every key the shape does not
    list. Each hand-written `ParseInsert...` below is proved to accept exactly
    the bodies that this rule, applied to the column list, accepts. */
module Schema {
  import opened Wrappers
  import opened JsonValues

  type Id = string

  // ---------------------------------------------------------------- columns

  datatype ColumnType = Varchar | Text | Integer

  datatype ColumnDefault = NoDefault | RandomUuid | IntDefault(i: int) | TextDefault(t: string)

  /** One column: its property key (the JSON key), its SQL name, its type,
      whether it is `notNull()` (a primary key is), and its default. */
  datatype Column = Column(key: string, sqlName: string, ty: ColumnType, notNull: bool, defaultValue: ColumnDefault)

  datatype FieldRule = RequiredField | OptionalField | NullableField

  /** The insert-schema rule drizzle-zod derives from a column. */
  function InsertRule(c: Column): FieldRule {
    if !c.notNull then NullableField
    else if c.defaultValue != NoDefault then OptionalField
    else RequiredField
  }

  function IdColumn(): Column {
    Column("id", "id", Varchar, true, RandomUuid)
  }

  function NotNullText(key: string, sqlName: string): Column {
    Column(key, sqlName, Text, true, NoDefault)
  }

  function NullableTextColumn(key: string, sqlName: string): Column {
    Column(key, sqlName, Text, false, NoDefault)
  }

  const FacultyColumns: seq<Column> := [
    IdColumn(),
    NotNullText("name", "name"),
    NotNullText("title", "title"),
    NotNullText("department", "department"),
    NotNullText("email", "email"),
    NotNullText("bio", "bio"),
    NullableTextColumn("imageUrl", "image_url")
  ]

  const EventColumns: seq<Column> := [
    IdColumn(),
    NotNullText("title", "title"),
    NotNullText("description", "description"),
    NotNullText("date", "date"),
    NotNullText("time", "time"),
    NotNullText("location", "location"),
    NotNullText("category", "category"),
    NullableTextColumn("imageUrl", "image_url")
  ]

  const ProgramColumns: seq<Column> := [
    IdColumn(),
    NotNullText("name", "name"),
    NotNullText("description", "description"),
    NotNullText("icon", "icon"),
    Column("facultyCount", "faculty_count", Integer, true, IntDefault(0))
  ]

  const AnnouncementColumns: seq<Column> := [
    IdColumn(),
    NotNullText("title", "title"),
    NotNullText("content", "content"),
    NotNullText("date", "date"),
    Column("priority", "priority", Text, true, TextDefault("normal"))
  ]

  const GalleryImageColumns: seq<Column> := [
    IdColumn(),
    NotNullText("title", "title"),
    NotNullText("category", "category"),
    NotNullText("imageUrl", "image_url")
  ]

  const ContactColumns: seq<Column> := [
    IdColumn(),
    NotNullText("name", "name"),
    NotNullText("email", "email"),
    NullableTextColumn("phone", "phone"),
    NotNullText("inquiryType", "inquiry_type"),
    NotNullText("message", "message"),
    NotNullText("createdAt", "created_at")
  ]

  /** The keys `.omit(...)` removes from each insert shape. */
  const OmitId: set<string> := {"id"}
  const OmitIdAndCreatedAt: set<string> := {"id", "createdAt"}

  /** Whether `k` is a key of the insert shape. */
  predicate InShape(k: string, cols: seq<Column>, omitted: set<string>) {
    exists i :: 0 <= i < |cols| && cols[i].key !in omitted && cols[i].key == k
  }

  predicate TypeFits(v: Json, ty: ColumnType) {
    match ty
    case Varchar => v.JStr?
    case Text => v.JStr?
    case Integer => v.JNum?
  }

  /** Whether the body's entry for column `c` passes the column's rule. */
  predicate FieldOk(m: map<string, Json>, c: Column) {
    if c.key in m then
      TypeFits(m[c.key], c.ty) || (m[c.key] == JNull && InsertRule(c) == NullableField)
    else
      InsertRule(c) != RequiredField
  }

  /** The reference definition of validation: what `createInsertSchema(table)
      .omit(omitted).parse(body)` accepts. */
  predicate Conforms(body: Json, cols: seq<Column>, omitted: set<string>) {
    body.JObj? &&
    forall i :: 0 <= i < |cols| ==> cols[i].key in omitted || FieldOk(body.fields, cols[i])
  }

  // ------------------------------------------------------------ field parsers

  /** A nullable text value: the key omitted, an explicit null, or a string. */
  datatype NullableText = Omitted | Null | Present(s: string)

  function TextField(m: map<string, Json>, key: string): Option<string> {
    if key in m && m[key].JStr? then Some(m[key].s) else None
  }

  function NullableTextField(m: map<string, Json>, key: string): Option<NullableText> {
    if key !in m then Some(Omitted)
    else match m[key]
      case JNull => Some(Null)
      case JStr(s) => Some(Present(s))
      case _ => None
  }

  function OptionalIntField(m: map<string, Json>, key: string): Option<Option<int>> {
    if key !in m then Some(None)
    else if m[key].JNum? then Some(Some(m[key].n))
    else None
  }

  function OptionalTextField(m: map<string, Json>, key: string): Option<Option<string>> {
    if key !in m then Some(None)
    else if m[key].JStr? then Some(Some(m[key].s))
    else None
  }

  function PutNullable(m: map<string, Json>, key: string, v: NullableText): map<string, Json> {
    match v
    case Omitted => m
    case Null => m[key := JNull]
    case Present(s) => m[key := JStr(s)]
  }

  function PutOptionalInt(m: map<string, Json>, key: string, v: Option<int>): map<string, Json> {
    if v.Some? then m[key := JNum(v.value)] else m
  }

  function PutOptionalText(m: map<string, Json>, key: string, v: Option<string>): map<string, Json> {
    if v.Some? then m[key := JStr(v.value)] else m
  }

  /** Each field parser succeeds exactly when the column's rule holds. */
  lemma FieldParsersFollowRules(m: map<string, Json>, c: Column)
    ensures c.ty == Text && InsertRule(c) == RequiredField ==>
      (FieldOk(m, c) <==> TextField(m, c.key).Some?)
    ensures c.ty == Text && InsertRule(c) == NullableField ==>
      (FieldOk(m, c) <==> NullableTextField(m, c.key).Some?)
    ensures c.ty == Text && InsertRule(c) == OptionalField ==>
      (FieldOk(m, c) <==> OptionalTextField(m, c.key).Some?)
    ensures c.ty == Integer && InsertRule(c) == OptionalField ==>
      (FieldOk(m, c) <==> OptionalIntField(m, c.key).Some?)
  {
  }

  // ------------------------------------------------------------------ faculty

  datatype InsertFaculty = InsertFaculty(
    name: string, title: string, department: string, email: string, bio: string,
    imageUrl: NullableText)
  {
    /** `{ ...insertFaculty, id }` */
    function WithId(id: Id): (f: Faculty)
      ensures f.id == id && f.Fields() == this
    {
      Faculty(id, name, title, department, email, bio, imageUrl)
    }

    /** The JSON body that carries exactly this insert. */
    function ToJson(): (j: Json)
      ensures j.JObj?
      ensures "id" !in j.fields
    {
      JObj(PutNullable(map["name" := JStr(name), "title" := JStr(title),
        "department" := JStr(department), "email" := JStr(email), "bio" := JStr(bio)],
        "imageUrl", imageUrl))
    }
  }

  datatype Faculty = Faculty(
    id: Id, name: string, title: string, department: string, email: string, bio: string,
    imageUrl: NullableText)
  {
    function Fields(): InsertFaculty {
      InsertFaculty(name, title, department, email, bio, imageUrl)
    }

    /** The record as `res.json` sends it: the insert's keys plus `id`. */
    function ToJson(): (j: Json)
      ensures j.JObj? && "id" in j.fields && j.fields["id"] == JStr(id)
      ensures j.fields - {"id"} == Fields().ToJson().fields
    {
      var fields := Fields().ToJson().fields;
      assert fields["id" := JStr(id)] - {"id"} == fields;
      JObj(fields["id" := JStr(id)])
    }
  }

  /** `insertFacultySchema.parse(body)`: every key and value of the result
      comes from the body, so no default is filled in. */
  function ParseInsertFaculty(body: Json): (r: Option<InsertFaculty>)
    ensures r.Some? ==> body.JObj? && r.value.ToJson().fields.Items <= body.fields.Items
  {
    if !body.JObj? then None
    else
      var m := body.fields;
      var name :- TextField(m, "name");
      var title :- TextField(m, "title");
      var department :- TextField(m, "department");
      var email :- TextField(m, "email");
      var bio :- TextField(m, "bio");
      var imageUrl :- NullableTextField(m, "imageUrl");
      Some(InsertFaculty(name, title, department, email, bio, imageUrl))
  }

  lemma FacultyParseMatchesSchema(body: Json)
    ensures ParseInsertFaculty(body).Some? <==> Conforms(body, FacultyColumns, OmitId)
  {
    if body.JObj? {
      var m, cs := body.fields, FacultyColumns;
      FieldParsersFollowRules(m, cs[1]);
      FieldParsersFollowRules(m, cs[2]);
      FieldParsersFollowRules(m, cs[3]);
      FieldParsersFollowRules(m, cs[4]);
      FieldParsersFollowRules(m, cs[5]);
      FieldParsersFollowRules(m, cs[6]);
    }
  }

  /** Every required key of a faculty member must be present. */
  lemma FacultyRequiredKeys(m: map<string, Json>)
    ensures ParseInsertFaculty(JObj(m - {"name"})) == None
    ensures ParseInsertFaculty(JObj(m - {"title"})) == None
    ensures ParseInsertFaculty(JObj(m - {"department"})) == None
    ensures ParseInsertFaculty(JObj(m - {"email"})) == None
    ensures ParseInsertFaculty(JObj(m - {"bio"})) == None
  {
  }

  lemma FacultyParseRoundTrip(i: InsertFaculty)
    ensures ParseInsertFaculty(i.ToJson()) == Some(i)
  {
    var m := i.ToJson().fields;
    assert TextField(m, "name") == Some(i.name);
    assert TextField(m, "title") == Some(i.title);
    assert TextField(m, "department") == Some(i.department);
    assert TextField(m, "email") == Some(i.email);
    assert TextField(m, "bio") == Some(i.bio);
    assert NullableTextField(m, "imageUrl") == Some(i.imageUrl);
  }

  /** `parse` strips keys the shape does not list, so an `id` (or any other
      unknown key) in the body changes nothing. */
  lemma FacultyParseIgnoresOtherKeys(m: map<string, Json>, k: string, v: Json)
    requires !InShape(k, FacultyColumns, OmitId)
    ensures ParseInsertFaculty(JObj(m[k := v])) == ParseInsertFaculty(JObj(m))
  {
    assert k != FacultyColumns[1].key;
    assert k != FacultyColumns[2].key;
    assert k != FacultyColumns[3].key;
    assert k != FacultyColumns[4].key;
    assert k != FacultyColumns[5].key;
    assert k != FacultyColumns[6].key;
  }

  /** Unlike a gallery image's, a faculty member's `imageUrl` may be omitted or null. */
  lemma FacultyImageUrlOptional(m: map<string, Json>)
    requires ParseInsertFaculty(JObj(m)).Some?
    ensures ParseInsertFaculty(JObj(m - {"imageUrl"})) == Some(ParseInsertFaculty(JObj(m)).value.(imageUrl := Omitted))
    ensures ParseInsertFaculty(JObj(m["imageUrl" := JNull])) == Some(ParseInsertFaculty(JObj(m)).value.(imageUrl := Null))
  {
    var m0, m1 := m - {"imageUrl"}, m["imageUrl" := JNull];
    assert forall k :: k != "imageUrl" ==> TextField(m0, k) == TextField(m, k) == TextField(m1, k);
  }

  // ------------------------------------------------------------------- events

  datatype InsertEvent = InsertEvent(
    title: string, description: string, date: string, time: string, location: string,
    category: string, imageUrl: NullableText)
  {
    function WithId(id: Id): (e: Event)
      ensures e.id == id && e.Fields() == this
    {
      Event(id, title, description, date, time, location, category, imageUrl)
    }

    function ToJson(): (j: Json)
      ensures j.JObj?
      ensures "id" !in j.fields
    {
      JObj(PutNullable(map["title" := JStr(title), "description" := JStr(description),
        "date" := JStr(date), "time" := JStr(time), "location" := JStr(location),
        "category" := JStr(category)], "imageUrl", imageUrl))
    }
  }

  datatype Event = Event(
    id: Id, title: string, description: string, date: string, time: string, location: string,
    category: string, imageUrl: NullableText)
  {
    function Fields(): InsertEvent {
      InsertEvent(title, description, date, time, location, category, imageUrl)
    }

    function ToJson(): (j: Json)
      ensures j.JObj? && "id" in j.fields && j.fields["id"] == JStr(id)
      ensures j.fields - {"id"} == Fields().ToJson().fields
    {
      var fields := Fields().ToJson().fields;
      assert fields["id" := JStr(id)] - {"id"} == fields;
      JObj(fields["id" := JStr(id)])
    }
  }

  /** `insertEventSchema.parse(body)`: every key and value of the result
      comes from the body, so no default is filled in. */
  function ParseInsertEvent(body: Json): (r: Option<InsertEvent>)
    ensures r.Some? ==> body.JObj? && r.value.ToJson().fields.Items <= body.fields.Items
  {
    if !body.JObj? then None
    else
      var m := body.fields;
      var title :- TextField(m, "title");
      var description :- TextField(m, "description");
      var date :- TextField(m, "date");
      var time :- TextField(m, "time");
      var location :- TextField(m, "location");
      var category :- TextField(m, "category");
      var imageUrl :- NullableTextField(m, "imageUrl");
      Some(InsertEvent(title, description, date, time, location, category, imageUrl))
  }

  lemma EventParseMatchesSchema(body: Json)
    ensures ParseInsertEvent(body).Some? <==> Conforms(body, EventColumns, OmitId)
  {
    if body.JObj? {
      var m, cs := body.fields, EventColumns;
      FieldParsersFollowRules(m, cs[1]);
      FieldParsersFollowRules(m, cs[2]);
      FieldParsersFollowRules(m, cs[3]);
      FieldParsersFollowRules(m, cs[4]);
      FieldParsersFollowRules(m, cs[5]);
      FieldParsersFollowRules(m, cs[6]);
      FieldParsersFollowRules(m, cs[7]);
    }
  }

  /** Every required key of an event must be present. */
  lemma EventRequiredKeys(m: map<string, Json>)
    ensures ParseInsertEvent(JObj(m - {"title"})) == None
    ensures ParseInsertEvent(JObj(m - {"description"})) == None
    ensures ParseInsertEvent(JObj(m - {"date"})) == None
    ensures ParseInsertEvent(JObj(m - {"time"})) == None
    ensures ParseInsertEvent(JObj(m - {"location"})) == None
    ensures ParseInsertEvent(JObj(m - {"category"})) == None
  {
  }

  lemma EventParseRoundTrip(i: InsertEvent)
    ensures ParseInsertEvent(i.ToJson()) == Some(i)
  {
    var m := i.ToJson().fields;
    assert TextField(m, "title") == Some(i.title);
    assert TextField(m, "description") == Some(i.description);
    assert TextField(m, "date") == Some(i.date);
    assert TextField(m, "time") == Some(i.time);
    assert TextField(m, "location") == Some(i.location);
    assert TextField(m, "category") == Some(i.category);
    assert NullableTextField(m, "imageUrl") == Some(i.imageUrl);
  }

  lemma EventParseIgnoresOtherKeys(m: map<string, Json>, k: string, v: Json)
    requires !InShape(k, EventColumns, OmitId)
    ensures ParseInsertEvent(JObj(m[k := v])) == ParseInsertEvent(JObj(m))
  {
    assert k != EventColumns[1].key;
    assert k != EventColumns[2].key;
    assert k != EventColumns[3].key;
    assert k != EventColumns[4].key;
    assert k != EventColumns[5].key;
    assert k != EventColumns[6].key;
    assert k != EventColumns[7].key;
  }
  /** Like a faculty member's, an event's `imageUrl` may be omitted or null. */
  lemma EventImageUrlOptional(m: map<string, Json>)
    requires ParseInsertEvent(JObj(m)).Some?
    ensures ParseInsertEvent(JObj(m - {"imageUrl"})) == Some(ParseInsertEvent(JObj(m)).value.(imageUrl := Omitted))
    ensures ParseInsertEvent(JObj(m["imageUrl" := JNull])) == Some(ParseInsertEvent(JObj(m)).value.(imageUrl := Null))
  {
    var m0, m1 := m - {"imageUrl"}, m["imageUrl" := JNull];
    assert forall k :: k != "imageUrl" ==> TextField(m0, k) == TextField(m, k) == TextField(m1, k);
  }

  // ----------------------------------------------------------------- programs

  datatype InsertProgram = InsertProgram(
    name: string, description: string, icon: string, facultyCount: Option<int>)
  {
    function WithId(id: Id): (p: Program)
      ensures p.id == id && p.Fields() == this
    {
      Program(id, name, description, icon, facultyCount)
    }

    function ToJson(): (j: Json)
      ensures j.JObj?
      ensures "id" !in j.fields
    {
      JObj(PutOptionalInt(map["name" := JStr(name), "description" := JStr(description),
        "icon" := JStr(icon)], "facultyCount", facultyCount))
    }
  }

  /** A stored program. `facultyCount` is `None` when the insert omitted it:
      the column default 0 is a database default, and the in-memory store
      keeps `{ ...insertProgram, id }` as it is. */
  datatype Program = Program(
    id: Id, name: string, description: string, icon: string, facultyCount: Option<int>)
  {
    function Fields(): InsertProgram {
      InsertProgram(name, description, icon, facultyCount)
    }

    function ToJson(): (j: Json)
      ensures j.JObj? && "id" in j.fields && j.fields["id"] == JStr(id)
      ensures j.fields - {"id"} == Fields().ToJson().fields
    {
      var fields := Fields().ToJson().fields;
      assert fields["id" := JStr(id)] - {"id"} == fields;
      JObj(fields["id" := JStr(id)])
    }
  }

  /** `insertProgramSchema.parse(body)`: every key and value of the result
      comes from the body, so no default is filled in. */
  function ParseInsertProgram(body: Json): (r: Option<InsertProgram>)
    ensures r.Some? ==> body.JObj? && r.value.ToJson().fields.Items <= body.fields.Items
  {
    if !body.JObj? then None
    else
      var m := body.fields;
      var name :- TextField(m, "name");
      var description :- TextField(m, "description");
      var icon :- TextField(m, "icon");
      var facultyCount :- OptionalIntField(m, "facultyCount");
      Some(InsertProgram(name, description, icon, facultyCount))
  }

  lemma ProgramParseMatchesSchema(body: Json)
    ensures ParseInsertProgram(body).Some? <==> Conforms(body, ProgramColumns, OmitId)
  {
    if body.JObj? {
      var m, cs := body.fields, ProgramColumns;
      FieldParsersFollowRules(m, cs[1]);
      FieldParsersFollowRules(m, cs[2]);
      FieldParsersFollowRules(m, cs[3]);
      FieldParsersFollowRules(m, cs[4]);
    }
  }

  /** Every required key of a program must be present. */
  lemma ProgramRequiredKeys(m: map<string, Json>)
    ensures ParseInsertProgram(JObj(m - {"name"})) == None
    ensures ParseInsertProgram(JObj(m - {"description"})) == None
    ensures ParseInsertProgram(JObj(m - {"icon"})) == None
  {
  }

  lemma ProgramParseRoundTrip(i: InsertProgram)
    ensures ParseInsertProgram(i.ToJson()) == Some(i)
  {
    var m := i.ToJson().fields;
    assert TextField(m, "name") == Some(i.name);
    assert TextField(m, "description") == Some(i.description);
    assert TextField(m, "icon") == Some(i.icon);
    assert OptionalIntField(m, "facultyCount") == Some(i.facultyCount);
  }

  lemma ProgramParseIgnoresOtherKeys(m: map<string, Json>, k: string, v: Json)
    requires !InShape(k, ProgramColumns, OmitId)
    ensures ParseInsertProgram(JObj(m[k := v])) == ParseInsertProgram(JObj(m))
  {
    assert k != ProgramColumns[1].key;
    assert k != ProgramColumns[2].key;
    assert k != ProgramColumns[3].key;
    assert k != ProgramColumns[4].key;
  }

  /** `facultyCount` has a default, so an insert may omit it; it is not
      nullable, so an explicit null is rejected. */
  lemma ProgramFacultyCountDefaulted(m: map<string, Json>)
    requires ParseInsertProgram(JObj(m)).Some?
    ensures ParseInsertProgram(JObj(m - {"facultyCount"})) == Some(ParseInsertProgram(JObj(m)).value.(facultyCount := None))
    ensures ParseInsertProgram(JObj(m["facultyCount" := JNull])) == None
  {
    var m0 := m - {"facultyCount"};
    assert forall k :: k != "facultyCount" ==> TextField(m0, k) == TextField(m, k);
  }

  // ------------------------------------------------------------ announcements

  datatype InsertAnnouncement = InsertAnnouncement(
    title: string, content: string, date: string, priority: Option<string>)
  {
    function WithId(id: Id): (a: Announcement)
      ensures a.id == id && a.Fields() == this
    {
      Announcement(id, title, content, date, priority)
    }

    function ToJson(): (j: Json)
      ensures j.JObj?
      ensures "id" !in j.fields
    {
      JObj(PutOptionalText(map["title" := JStr(title), "content" := JStr(content),
        "date" := JStr(date)], "priority", priority))
    }
  }

  /** A stored announcement; `priority` is `None` when the insert omitted it
      (the default "normal" is a database default). */
  datatype Announcement = Announcement(
    id: Id, title: string, content: string, date: string, priority: Option<string>)
  {
    function Fields(): InsertAnnouncement {
      InsertAnnouncement(title, content, date, priority)
    }

    function ToJson(): (j: Json)
      ensures j.JObj? && "id" in j.fields && j.fields["id"] == JStr(id)
      ensures j.fields - {"id"} == Fields().ToJson().fields
    {
      var fields := Fields().ToJson().fields;
      assert fields["id" := JStr(id)] - {"id"} == fields;
      JObj(fields["id" := JStr(id)])
    }
  }

  /** `insertAnnouncementSchema.parse(body)`: every key and value of the result
      comes from the body, so no default is filled in. */
  function ParseInsertAnnouncement(body: Json): (r: Option<InsertAnnouncement>)
    ensures r.Some? ==> body.JObj? && r.value.ToJson().fields.Items <= body.fields.Items
  {
    if !body.JObj? then None
    else
      var m := body.fields;
      var title :- TextField(m, "title");
      var content :- TextField(m, "content");
      var date :- TextField(m, "date");
      var priority :- OptionalTextField(m, "priority");
      Some(InsertAnnouncement(title, content, date, priority))
  }

  lemma AnnouncementParseMatchesSchema(body: Json)
    ensures ParseInsertAnnouncement(body).Some? <==> Conforms(body, AnnouncementColumns, OmitId)
  {
    if body.JObj? {
      var m, cs := body.fields, AnnouncementColumns;
      FieldParsersFollowRules(m, cs[1]);
      FieldParsersFollowRules(m, cs[2]);
      FieldParsersFollowRules(m, cs[3]);
      FieldParsersFollowRules(m, cs[4]);
    }
  }

  /** Every required key of an announcement must be present. */
  lemma AnnouncementRequiredKeys(m: map<string, Json>)
    ensures ParseInsertAnnouncement(JObj(m - {"title"})) == None
    ensures ParseInsertAnnouncement(JObj(m - {"content"})) == None
    ensures ParseInsertAnnouncement(JObj(m - {"date"})) == None
  {
  }

  /** `priority` has the default "normal", so an insert may omit it; it is not
      nullable, so an explicit null is rejected. */
  lemma AnnouncementPriorityDefaulted(m: map<string, Json>)
    requires ParseInsertAnnouncement(JObj(m)).Some?
    ensures ParseInsertAnnouncement(JObj(m - {"priority"})) == Some(ParseInsertAnnouncement(JObj(m)).value.(priority := None))
    ensures ParseInsertAnnouncement(JObj(m["priority" := JNull])) == None
  {
    var m0 := m - {"priority"};
    assert forall k :: k != "priority" ==> TextField(m0, k) == TextField(m, k);
  }

  lemma AnnouncementParseRoundTrip(i: InsertAnnouncement)
    ensures ParseInsertAnnouncement(i.ToJson()) == Some(i)
  {
    var m := i.ToJson().fields;
    assert TextField(m, "title") == Some(i.title);
    assert TextField(m, "content") == Some(i.content);
    assert TextField(m, "date") == Some(i.date);
    assert OptionalTextField(m, "priority") == Some(i.priority);
  }

  // ----------------------------------------------------------- gallery images

  datatype InsertGalleryImage = InsertGalleryImage(title: string, category: string, imageUrl: string)
  {
    function WithId(id: Id): (g: GalleryImage)
      ensures g.id == id && g.Fields() == this
    {
      GalleryImage(id, title, category, imageUrl)
    }

    function ToJson(): (j: Json)
      ensures j.JObj?
      ensures "id" !in j.fields
    {
      JObj(map["title" := JStr(title), "category" := JStr(category), "imageUrl" := JStr(imageUrl)])
    }
  }

  datatype GalleryImage = GalleryImage(id: Id, title: string, category: string, imageUrl: string)
  {
    function Fields(): InsertGalleryImage {
      InsertGalleryImage(title, category, imageUrl)
    }

    function ToJson(): (j: Json)
      ensures j.JObj? && "id" in j.fields && j.fields["id"] == JStr(id)
      ensures j.fields - {"id"} == Fields().ToJson().fields
    {
      var fields := Fields().ToJson().fields;
      assert fields["id" := JStr(id)] - {"id"} == fields;
      JObj(fields["id" := JStr(id)])
    }
  }

  /** `insertGalleryImageSchema.parse(body)`: every key and value of the result
      comes from the body, so no default is filled in. */
  function ParseInsertGalleryImage(body: Json): (r: Option<InsertGalleryImage>)
    ensures r.Some? ==> body.JObj? && r.value.ToJson().fields.Items <= body.fields.Items
  {
    if !body.JObj? then None
    else
      var m := body.fields;
      var title :- TextField(m, "title");
      var category :- TextField(m, "category");
      var imageUrl :- TextField(m, "imageUrl");
      Some(InsertGalleryImage(title, category, imageUrl))
  }

  lemma GalleryImageParseMatchesSchema(body: Json)
    ensures ParseInsertGalleryImage(body).Some? <==> Conforms(body, GalleryImageColumns, OmitId)
  {
    if body.JObj? {
      var m, cs := body.fields, GalleryImageColumns;
      FieldParsersFollowRules(m, cs[1]);
      FieldParsersFollowRules(m, cs[2]);
      FieldParsersFollowRules(m, cs[3]);
    }
  }

  /** Every required key of a gallery image must be present. */
  lemma GalleryImageRequiredKeys(m: map<string, Json>)
    ensures ParseInsertGalleryImage(JObj(m - {"title"})) == None
    ensures ParseInsertGalleryImage(JObj(m - {"category"})) == None
    ensures ParseInsertGalleryImage(JObj(m - {"imageUrl"})) == None
  {
  }

  lemma GalleryImageParseRoundTrip(i: InsertGalleryImage)
    ensures ParseInsertGalleryImage(i.ToJson()) == Some(i)
  {
    var m := i.ToJson().fields;
    assert TextField(m, "title") == Some(i.title);
    assert TextField(m, "category") == Some(i.category);
    assert TextField(m, "imageUrl") == Some(i.imageUrl);
  }

  lemma GalleryImageParseIgnoresOtherKeys(m: map<string, Json>, k: string, v: Json)
    requires !InShape(k, GalleryImageColumns, OmitId)
    ensures ParseInsertGalleryImage(JObj(m[k := v])) == ParseInsertGalleryImage(JObj(m))
  {
    assert k != GalleryImageColumns[1].key;
    assert k != GalleryImageColumns[2].key;
    assert k != GalleryImageColumns[3].key;
  }

  /** A gallery image's `imageUrl` column is `notNull()`: omitting it or
      sending null fails validation. */
  lemma GalleryImageUrlRequired(m: map<string, Json>)
    ensures ParseInsertGalleryImage(JObj(m - {"imageUrl"})) == None
    ensures ParseInsertGalleryImage(JObj(m["imageUrl" := JNull])) == None
  {
  }

  // ----------------------------------------------------------------- contacts

  datatype InsertContact = InsertContact(
    name: string, email: string, phone: NullableText, inquiryType: string, message: string)
  {
    /** `{ ...insertContact, id, createdAt }` */
    function WithId(id: Id, createdAt: string): (c: Contact)
      ensures c.id == id && c.createdAt == createdAt && c.Fields() == this
    {
      Contact(id, name, email, phone, inquiryType, message, createdAt)
    }

    function ToJson(): (j: Json)
      ensures j.JObj?
      ensures "id" !in j.fields && "createdAt" !in j.fields
    {
      JObj(PutNullable(map["name" := JStr(name), "email" := JStr(email),
        "inquiryType" := JStr(inquiryType), "message" := JStr(message)], "phone", phone))
    }
  }

  datatype Contact = Contact(
    id: Id, name: string, email: string, phone: NullableText, inquiryType: string, message: string,
    createdAt: string)
  {
    function Fields(): InsertContact {
      InsertContact(name, email, phone, inquiryType, message)
    }

    function ToJson(): (j: Json)
      ensures j.JObj? && "id" in j.fields && j.fields["id"] == JStr(id)
      ensures "createdAt" in j.fields && j.fields["createdAt"] == JStr(createdAt)
      ensures j.fields - {"id", "createdAt"} == Fields().ToJson().fields
    {
      var fields := Fields().ToJson().fields;
      assert fields["id" := JStr(id)]["createdAt" := JStr(createdAt)] - {"id", "createdAt"} == fields;
      JObj(fields["id" := JStr(id)]["createdAt" := JStr(createdAt)])
    }
  }

  /** `insertContactSchema.parse(body)`: every key and value of the result
      comes from the body, so no default is filled in. */
  function ParseInsertContact(body: Json): (r: Option<InsertContact>)
    ensures r.Some? ==> body.JObj? && r.value.ToJson().fields.Items <= body.fields.Items
  {
    if !body.JObj? then None
    else
      var m := body.fields;
      var name :- TextField(m, "name");
      var email :- TextField(m, "email");
      var phone :- NullableTextField(m, "phone");
      var inquiryType :- TextField(m, "inquiryType");
      var message :- TextField(m, "message");
      Some(InsertContact(name, email, phone, inquiryType, message))
  }

  lemma ContactParseMatchesSchema(body: Json)
    ensures ParseInsertContact(body).Some? <==> Conforms(body, ContactColumns, OmitIdAndCreatedAt)
  {
    if body.JObj? {
      var m, cs := body.fields, ContactColumns;
      FieldParsersFollowRules(m, cs[1]);
      FieldParsersFollowRules(m, cs[2]);
      FieldParsersFollowRules(m, cs[3]);
      FieldParsersFollowRules(m, cs[4]);
      FieldParsersFollowRules(m, cs[5]);
    }
  }

  /** Every required key of a contact must be present. */
  lemma ContactRequiredKeys(m: map<string, Json>)
    ensures ParseInsertContact(JObj(m - {"name"})) == None
    ensures ParseInsertContact(JObj(m - {"email"})) == None
    ensures ParseInsertContact(JObj(m - {"inquiryType"})) == None
    ensures ParseInsertContact(JObj(m - {"message"})) == None
  {
  }

  /** A contact's `phone` may be omitted or null. */
  lemma ContactPhoneOptional(m: map<string, Json>)
    requires ParseInsertContact(JObj(m)).Some?
    ensures ParseInsertContact(JObj(m - {"phone"})) == Some(ParseInsertContact(JObj(m)).value.(phone := Omitted))
    ensures ParseInsertContact(JObj(m["phone" := JNull])) == Some(ParseInsertContact(JObj(m)).value.(phone := Null))
  {
    var m0, m1 := m - {"phone"}, m["phone" := JNull];
    assert forall k :: k != "phone" ==> TextField(m0, k) == TextField(m, k) == TextField(m1, k);
  }

  lemma ContactParseRoundTrip(i: InsertContact)
    ensures ParseInsertContact(i.ToJson()) == Some(i)
  {
    var m := i.ToJson().fields;
    assert TextField(m, "name") == Some(i.name);
    assert TextField(m, "email") == Some(i.email);
    assert NullableTextField(m, "phone") == Some(i.phone);
    assert TextField(m, "inquiryType") == Some(i.inquiryType);
    assert TextField(m, "message") == Some(i.message);
  }

  /** A client cannot choose a contact's `id` or `createdAt`: the insert shape
      omits both, so `parse` drops them. */
  lemma ContactParseIgnoresOtherKeys(m: map<string, Json>, k: string, v: Json)
    requires !InShape(k, ContactColumns, OmitIdAndCreatedAt)
    ensures ParseInsertContact(JObj(m[k := v])) == ParseInsertContact(JObj(m))
  {
    assert k != ContactColumns[1].key;
    assert k != ContactColumns[2].key;
    assert k != ContactColumns[3].key;
    assert k != ContactColumns[4].key;
    assert k != ContactColumns[5].key;
  }
}
