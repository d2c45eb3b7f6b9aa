/**
 * The frontend's record types and the runtime schemas that validate data
 * coming from the backend (`types/index.ts`).  A schema is a list of
 * `(key, kind)` pairs; validation collects one issue per offending key, in
 * schema order, and builds the record only when there is none.
 */
module Types {
  import opened Wrappers

  /** A decoded JSON value. */
  datatype Json =
    | JNull
    | JBool(b: bool)
    | JNum(n: int)
    | JStr(s: string)
    | JArr(items: seq<Json>)
    | JObj(fields: map<string, Json>)

  /** The eight lifecycle stages, in lifecycle order. */
  const Stages: seq<string> := ["idea", "mvp", "seed", "series_a", "series_b", "series_c", "growth", "ipo"]

  /** What a schema demands of one key. */
  datatype Kind =
    | Number
    | Str
    | NullableStr
    | Enum(values: seq<string>)
    | StrArray
    | AnyArray
    | MinLengthStr(min: nat, message: string)

  datatype IssueCode = Required | InvalidType | InvalidEnumValue | TooSmall(message: string)

  /** One validation failure; `path` is the offending key ("" for the value itself). */
  datatype Issue = Issue(path: string, code: IssueCode)

  type Schema = seq<(string, Kind)>

  /** The value has the base type the kind asks for. */
  predicate HasType(v: Json, kind: Kind)
  {
    match kind
    case Number => v.JNum?
    case Str => v.JStr?
    case NullableStr => v.JStr? || v.JNull?
    case Enum(_) => v.JStr?
    case StrArray => v.JArr? && forall e :: e in v.items ==> e.JStr?
    case AnyArray => v.JArr?
    case MinLengthStr(_, _) => v.JStr?
  }

  /** The value satisfies the kind completely. */
  predicate Fits(v: Json, kind: Kind)
  {
    HasType(v, kind) &&
    match kind
    case Enum(values) => v.s in values
    case MinLengthStr(min, _) => |v.s| >= min
    case _ => true
  }

  /** The issues one key raises: none exactly when the key is present and fits. */
  function CheckKey(o: map<string, Json>, key: string, kind: Kind): (issues: seq<Issue>)
    ensures issues == [] <==> key in o && Fits(o[key], kind)
    ensures |issues| <= 1
    ensures forall i :: i in issues ==> i.path == key
    ensures key !in o ==> issues == [Issue(key, Required)]
  {
    if key !in o then [Issue(key, Required)]
    else if !HasType(o[key], kind) then [Issue(key, InvalidType)]
    else match kind
      case Enum(values) => if o[key].s in values then [] else [Issue(key, InvalidEnumValue)]
      case MinLengthStr(min, message) => if |o[key].s| >= min then [] else [Issue(key, TooSmall(message))]
      case _ => []
  }

  /** All issues of an object against a schema, in schema order. */
  function Check(o: map<string, Json>, schema: Schema): (issues: seq<Issue>)
    ensures issues == [] <==> Conforms(o, schema)
    ensures forall i :: i in issues ==> exists k :: 0 <= k < |schema| && schema[k].0 == i.path
  {
    if schema == [] then []
    else
      var first := CheckKey(o, schema[0].0, schema[0].1);
      var rest := Check(o, schema[1..]);
      assert forall k :: 0 < k < |schema| ==> schema[k] == schema[1..][k - 1];
      first + rest
  }

  /** The keys a schema names. */
  function SchemaKeys(schema: Schema): set<string>
  {
    set p | p in schema :: p.0
  }

  /**
   * Validates `value` against `schema`. On success the result is the object
   * restricted to the schema's keys (`z.object` strips unknown keys); on
   * failure it is the list of issues.
   */
  function Validate(value: Json, schema: Schema): (r: Result<map<string, Json>, seq<Issue>>)
    ensures r.Success? <==> value.JObj? && Conforms(value.fields, schema)
    ensures r.Success? ==> r.value.Keys == SchemaKeys(schema)
    ensures r.Success? ==> forall k :: k in r.value ==> k in value.fields && r.value[k] == value.fields[k]
    ensures r.Success? ==> Conforms(r.value, schema)
    ensures r.Failure? ==> r.error != []
  {
    if !value.JObj? then Failure([Issue("", InvalidType)])
    else
      var issues := Check(value.fields, schema);
      if issues == [] then
        StripConforms(value.fields, schema);
        Success(Strip(value.fields, schema))
      else Failure(issues)
  }

  /** The entries of `o` under the schema's keys. */
  function Strip(o: map<string, Json>, schema: Schema): map<string, Json>
  {
    map k | k in o && k in SchemaKeys(schema) :: o[k]
  }

  /** Stripping a conforming object keeps exactly the schema's keys, and it still conforms. */
  lemma StripConforms(o: map<string, Json>, schema: Schema)
    requires Conforms(o, schema)
    ensures Strip(o, schema).Keys == SchemaKeys(schema)
    ensures Conforms(Strip(o, schema), schema)
  {
    var r := Strip(o, schema);
    forall x | x in SchemaKeys(schema) ensures x in r {
      var p :| p in schema && p.0 == x;
      var k :| 0 <= k < |schema| && schema[k] == p;
    }
    forall k | 0 <= k < |schema| ensures schema[k].0 in r && Fits(r[schema[k].0], schema[k].1) {
      assert schema[k] in schema;
    }
  }

  /** Independent statement of what a valid object is: every schema key is present and fits. */
  predicate Conforms(o: map<string, Json>, schema: Schema)
  {
    forall k :: 0 <= k < |schema| ==> schema[k].0 in o && Fits(o[schema[k].0], schema[k].1)
  }

  // ---------------------------------------------------------------- Startup

  /** `StartupSchema`: every key required, only `website` may be null. */
  const StartupSchema: Schema := [
    ("id", Number), ("name", Str), ("website", NullableStr), ("location", Str),
    ("industry", Str), ("stage", Enum(Stages)), ("description", Str), ("tags", Str),
    ("tag_list", StrArray), ("created_at", Str), ("updated_at", Str)
  ]

  datatype Startup = Startup(
    id: int, name: string, website: Option<string>, location: string, industry: string,
    stage: string, description: string, tags: string, tagList: seq<string>,
    createdAt: string, updatedAt: string)

  predicate ValidStartup(s: Startup)
  {
    s.stage in Stages
  }

  function Strings(items: seq<Json>): seq<string>
    requires forall e :: e in items ==> e.JStr?
  {
    seq(|items|, k requires 0 <= k < |items| => items[k].s)
  }

  function ParseStartup(value: Json): (r: Result<Startup, seq<Issue>>)
    ensures r.Success? <==> value.JObj? && Conforms(value.fields, StartupSchema)
    ensures r.Success? ==> ValidStartup(r.value)
  {
    match Validate(value, StartupSchema)
    case Failure(issues) => Failure(issues)
    case Success(o) => Success(BuildStartup(o))
  }

  /** The record a conforming object describes. */
  function BuildStartup(o: map<string, Json>): (s: Startup)
    requires Conforms(o, StartupSchema)
    ensures ValidStartup(s)
  {
    var schema := StartupSchema;
    assert schema[0].0 in o && Fits(o[schema[0].0], schema[0].1);
    assert schema[1].0 in o && Fits(o[schema[1].0], schema[1].1);
    assert schema[2].0 in o && Fits(o[schema[2].0], schema[2].1);
    assert schema[3].0 in o && Fits(o[schema[3].0], schema[3].1);
    assert schema[4].0 in o && Fits(o[schema[4].0], schema[4].1);
    assert schema[5].0 in o && Fits(o[schema[5].0], schema[5].1);
    assert schema[6].0 in o && Fits(o[schema[6].0], schema[6].1);
    assert schema[7].0 in o && Fits(o[schema[7].0], schema[7].1);
    assert schema[8].0 in o && Fits(o[schema[8].0], schema[8].1);
    assert schema[9].0 in o && Fits(o[schema[9].0], schema[9].1);
    assert schema[10].0 in o && Fits(o[schema[10].0], schema[10].1);
    Startup(
      o["id"].n, o["name"].s, if o["website"].JNull? then None else Some(o["website"].s),
      o["location"].s, o["industry"].s, o["stage"].s, o["description"].s, o["tags"].s,
      Strings(o["tag_list"].items), o["created_at"].s, o["updated_at"].s)
  }

  function StartupToJson(s: Startup): Json
  {
    JObj(map[
      "id" := JNum(s.id), "name" := JStr(s.name),
      "website" := (match s.website case None => JNull case Some(w) => JStr(w)),
      "location" := JStr(s.location), "industry" := JStr(s.industry), "stage" := JStr(s.stage),
      "description" := JStr(s.description), "tags" := JStr(s.tags),
      "tag_list" := JArr(seq(|s.tagList|, k requires 0 <= k < |s.tagList| => JStr(s.tagList[k]))),
      "created_at" := JStr(s.createdAt), "updated_at" := JStr(s.updatedAt)])
  }

  /** A valid startup survives being sent as JSON and validated again. */
  lemma StartupRoundTrip(s: Startup)
    requires ValidStartup(s)
    ensures ParseStartup(StartupToJson(s)) == Success(s)
  {
    ToJsonConforms(s);
    ParseConforming(StartupToJson(s));
    JsonFields(s);
    BuildDescribed(StartupToJson(s).fields, s);
  }

  /** A conforming object parses to the record it describes. */
  lemma ParseConforming(value: Json)
    requires value.JObj? && Conforms(value.fields, StartupSchema)
    ensures ParseStartup(value) == Success(BuildStartup(value.fields))
  {
  }

  /** Each field of `o` holds the matching field of `s`, as JSON. */
  predicate Describes(o: map<string, Json>, s: Startup)
  {
    && "id" in o && o["id"] == JNum(s.id) && "name" in o && o["name"] == JStr(s.name)
    && "location" in o && o["location"] == JStr(s.location)
    && "industry" in o && o["industry"] == JStr(s.industry) && "stage" in o && o["stage"] == JStr(s.stage)
    && "description" in o && o["description"] == JStr(s.description) && "tags" in o && o["tags"] == JStr(s.tags)
    && "created_at" in o && o["created_at"] == JStr(s.createdAt)
    && "updated_at" in o && o["updated_at"] == JStr(s.updatedAt)
    && "website" in o && o["website"] == (match s.website case None => JNull case Some(w) => JStr(w))
    && "tag_list" in o && o["tag_list"] == JArr(seq(|s.tagList|, k requires 0 <= k < |s.tagList| => JStr(s.tagList[k])))
  }

  /** The record built from an object describing `s` is `s`. */
  lemma BuildDescribed(o: map<string, Json>, s: Startup)
    requires Conforms(o, StartupSchema) && Describes(o, s)
    ensures BuildStartup(o) == s
  {
    var b := BuildStartup(o);
    assert Strings(o["tag_list"].items) == s.tagList;
    assert b.website == s.website;
  }

  /** Each field of the JSON object holds the matching field of the record. */
  lemma JsonFields(s: Startup)
    ensures Describes(StartupToJson(s).fields, s)
  {
  }

  lemma ToJsonConforms(s: Startup)
    requires ValidStartup(s)
    ensures Conforms(StartupToJson(s).fields, StartupSchema)
  {
    var o := StartupToJson(s).fields;
    var schema := StartupSchema;
    forall k | 0 <= k < |schema| ensures schema[k].0 in o && Fits(o[schema[k].0], schema[k].1) {
      if k == 5 {
        assert schema[k] == ("stage", Enum(Stages));
      } else if k == 8 {
        assert schema[k] == ("tag_list", StrArray);
        assert forall e :: e in o["tag_list"].items ==> e.JStr?;
      } else if k == 2 {
        assert schema[k] == ("website", NullableStr);
      }
    }
  }

  /** Dropping any key of the schema makes validation fail on that key. */
  lemma MissingKeyRejected(o: map<string, Json>, key: string, kind: Kind, schema: Schema)
    requires (key, kind) in schema && key !in o
    ensures Issue(key, Required) in Check(o, schema)
  {
    assert schema == [schema[0]] + schema[1..];
    if schema[0] != (key, kind) {
      MissingKeyRejected(o, key, kind, schema[1..]);
    }
  }

  // ------------------------------------------------------------- Note forms

  const NoteContentRequired := "Note content is required"

  /** `CreateNoteSchema` */
  const CreateNoteSchema: Schema := [("startup", Number), ("content", MinLengthStr(1, NoteContentRequired))]

  datatype CreateNoteData = CreateNoteData(startup: int, content: string)

  function ParseCreateNote(value: Json): (r: Result<CreateNoteData, seq<Issue>>)
    ensures r.Success? <==> value.JObj? && Conforms(value.fields, CreateNoteSchema)
    ensures r.Success? ==> |r.value.content| >= 1
    ensures r.Success? ==>
      value.fields["startup"] == JNum(r.value.startup) && value.fields["content"] == JStr(r.value.content)
  {
    match Validate(value, CreateNoteSchema)
    case Failure(issues) => Failure(issues)
    case Success(o) =>
      assert CreateNoteSchema[0].0 in o && Fits(o[CreateNoteSchema[0].0], CreateNoteSchema[0].1);
      assert CreateNoteSchema[1].0 in o && Fits(o[CreateNoteSchema[1].0], CreateNoteSchema[1].1);
      Success(CreateNoteData(o["startup"].n, o["content"].s))
  }

  /** A note form with non-empty content parses to exactly the note it holds. */
  lemma NoteRoundTrip(startup: int, content: string)
    requires |content| >= 1
    ensures ParseCreateNote(JObj(map["startup" := JNum(startup), "content" := JStr(content)]))
         == Success(CreateNoteData(startup, content))
  {
    var o := map["startup" := JNum(startup), "content" := JStr(content)];
    assert Fits(o["startup"], Number) && Fits(o["content"], MinLengthStr(1, NoteContentRequired));
    assert Conforms(o, CreateNoteSchema);
  }

  /** Empty note content is refused with exactly the note-content message. */
  lemma EmptyNoteRejected(startup: int)
    ensures ParseCreateNote(JObj(map["startup" := JNum(startup), "content" := JStr("")]))
         == Failure([Issue("content", TooSmall(NoteContentRequired))])
  {
    var o := map["startup" := JNum(startup), "content" := JStr("")];
    assert CreateNoteSchema[1..][1..] == [];
    assert Check(o, CreateNoteSchema[1..]) == [Issue("content", TooSmall(NoteContentRequired))];
    assert Check(o, CreateNoteSchema) == [Issue("content", TooSmall(NoteContentRequired))];
  }

  /** `WatchlistItemSchema` */
  const WatchlistItemSchema: Schema := [("id", Number), ("startup", Number), ("startup_name", Str), ("created_at", Str)]

  /** `AddToWatchlistSchema` */
  const AddToWatchlistSchema: Schema := [("startup", Number)]

  /** `PaginatedResponseSchema`: a numeric count; `next` and `previous` may be null. */
  const PaginatedResponseSchema: Schema := [("count", Number), ("next", NullableStr), ("previous", NullableStr), ("results", AnyArray)]

  /** `PaginatedResponse<T>` */
  datatype PaginatedResponse<T> = PaginatedResponse(count: int, next: Option<string>, previous: Option<string>, results: seq<T>)

  /** `StartupFilters`: every field optional; `None` is an absent key. */
  datatype StartupFilters = StartupFilters(
    q: Option<string>, industry: Option<string>, location: Option<string>,
    stage: Option<string>, page: Option<int>, ordering: Option<string>)

  const NoFilters := StartupFilters(None, None, None, None, None, None)
}
