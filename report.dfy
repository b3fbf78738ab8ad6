/** The analyzer's JSON report as the action's serde-derived structs read
    it (src/main.rs:41-61), and the one thing `run` takes from it: the
    overall change category (src/main.rs:210-215). */
module Report {
  import opened Wrappers
  import opened Serde

  /** The four categories the analyzer reports. The action never orders
      or compares them. */
  datatype ChangeType = Patch | NonBreaking | TechnicallyBreaking | Breaking

  datatype SemverResultChanges =
    SemverResultChanges(maxCategory: ChangeType, pathChanges: Json, changes: Json)

  datatype SemverResult =
    SemverResult(oldVersion: string, newVersion: string, changes: SemverResultChanges)

  /** The variant's name as it appears in the JSON. */
  function VariantName(c: ChangeType): string
  {
    match c
    case Patch => "Patch"
    case NonBreaking => "NonBreaking"
    case TechnicallyBreaking => "TechnicallyBreaking"
    case Breaking => "Breaking"
  }

  function VariantNamed(name: string): Result<ChangeType, DeError>
  {
    if name == "Patch" then Ok(Patch)
    else if name == "NonBreaking" then Ok(NonBreaking)
    else if name == "TechnicallyBreaking" then Ok(TechnicallyBreaking)
    else if name == "Breaking" then Ok(Breaking)
    else Err(UnknownVariant(name))
  }

  /** A unit variant of the derived enum: `serde_json` takes the variant's
      name as a string, or an object whose single member maps the name to
      `null`. */
  function ParseChangeType(v: Json): Result<ChangeType, DeError>
  {
    match v
    case Str(name) => VariantNamed(name)
    case Object(members) =>
      if |members| == 0 then Err(InvalidType("enum ChangeTypes"))
      else (match VariantNamed(members[0].0)
        case Err(e) => Err(e)
        case Ok(c) =>
          if members[0].1 != Null then Err(InvalidType("unit variant"))
          else if |members| > 1 then Err(TrailingElements)
          else Ok(c))
    case _ => Err(InvalidType("enum ChangeTypes"))
  }

  /** A `String` field: only a JSON string. */
  function ParseString(v: Json): Result<string, DeError>
  {
    if v.Str? then Ok(v.s) else Err(InvalidType("a string"))
  }

  /** A `serde_json::Value` field: any JSON value, kept as it is. */
  function ParseValue(v: Json): Result<Json, DeError>
  {
    Ok(v)
  }

  const ChangesFields := FieldNames("max_category", "path_changes", "changes")
  const ResultFields := FieldNames("old_version", "new_version", "changes")

  function ParseChanges(v: Json): Result<SemverResultChanges, DeError>
  {
    match Struct3("struct SemverResultChanges", ChangesFields,
                  ParseChangeType, ParseValue, ParseValue, v)
    case Err(e) => Err(e)
    case Ok((c, p, ch)) => Ok(SemverResultChanges(c, p, ch))
  }

  function ParseSemverResult(v: Json): Result<SemverResult, DeError>
  {
    match Struct3("struct SemverResult", ResultFields,
                  ParseString, ParseString, ParseChanges, v)
    case Err(e) => Err(e)
    case Ok((o, n, ch)) => Ok(SemverResult(o, n, ch))
  }

  /** What `run` returns for the analyzer's output: the report's
      `changes.max_category`, or the parse error. */
  function MaxCategory(v: Json): Result<ChangeType, DeError>
  {
    match ParseSemverResult(v)
    case Err(e) => Err(e)
    case Ok(r) => Ok(r.changes.maxCategory)
  }

  /** Each name denotes exactly its own variant; no other text denotes one. */
  lemma VariantNamedMeaning(name: string, c: ChangeType)
    ensures VariantNamed(name) == Ok(c) <==> name == VariantName(c)
    ensures VariantNamed(name).Err? ==> VariantNamed(name) == Err(UnknownVariant(name))
  {
  }

  /** `v` stands for the category `c`: its name, or `{ "<name>": null }`. */
  ghost predicate Denotes(v: Json, c: ChangeType)
  {
    v == Str(VariantName(c)) || v == Object([(VariantName(c), Null)])
  }

  lemma ParseChangeTypeMeaning(v: Json, c: ChangeType)
    ensures ParseChangeType(v) == Ok(c) <==> Denotes(v, c)
  {
    match v
    case Str(name) =>
      VariantNamedMeaning(name, c);
    case Object(members) =>
      if |members| > 0 {
        VariantNamedMeaning(members[0].0, c);
        if Denotes(v, c) {
          assert members[0] == (VariantName(c), Null);
        }
      }
    case _ =>
  }

  /** The `changes` object says its category is `c`: as an object it has
      each of `max_category`, `path_changes` and `changes` exactly once
      (other keys are ignored) and `max_category` denotes `c`; as an array
      it has exactly three elements, the first denoting `c`. */
  ghost predicate ChangesSay(v: Json, c: ChangeType)
  {
    match v
    case Object(ms) =>
      KeyCount(ms, "max_category") == 1 && KeyCount(ms, "path_changes") == 1
      && KeyCount(ms, "changes") == 1 && Denotes(Lookup(ms, "max_category"), c)
    case Array(items) => |items| == 3 && Denotes(items[0], c)
    case _ => false
  }

  /** The whole report is well formed and says its category is `c`:
      `old_version` and `new_version` are strings, each of the three fields
      occurs once, and `changes` says `c`. */
  ghost predicate ReportSays(v: Json, c: ChangeType)
  {
    match v
    case Object(ms) =>
      KeyCount(ms, "old_version") == 1 && Lookup(ms, "old_version").Str?
      && KeyCount(ms, "new_version") == 1 && Lookup(ms, "new_version").Str?
      && KeyCount(ms, "changes") == 1 && ChangesSay(Lookup(ms, "changes"), c)
    case Array(items) =>
      |items| == 3 && items[0].Str? && items[1].Str? && ChangesSay(items[2], c)
    case _ => false
  }

  lemma {:induction false} ParseChangesMeaning(v: Json, c: ChangeType)
    ensures ParseChanges(v).Ok? && ParseChanges(v).value.maxCategory == c <==> ChangesSay(v, c)
  {
    match v
    case Object(ms) =>
      VisitMapMeaning(ChangesFields, ParseChangeType, ParseValue, ParseValue, ms, Slots(None, None, None));
      if KeyCount(ms, "max_category") == 1 {
        ParseChangeTypeMeaning(Lookup(ms, "max_category"), c);
      }
    case Array(items) =>
      if |items| > 0 {
        ParseChangeTypeMeaning(items[0], c);
      }
    case _ =>
  }

  /** The category `run` returns is exactly the one the well-formed report
      names in `changes.max_category`. A report with a field missing, a
      field twice, a version that is not a string, or a `max_category` that
      names no variant yields an error, never a default category. */
  lemma {:induction false} MaxCategoryMeaning(v: Json, c: ChangeType)
    ensures MaxCategory(v) == Ok(c) <==> ReportSays(v, c)
  {
    match v
    case Object(ms) =>
      VisitMapMeaning(ResultFields, ParseString, ParseString, ParseChanges, ms, Slots(None, None, None));
      if KeyCount(ms, "changes") == 1 {
        ParseChangesMeaning(Lookup(ms, "changes"), c);
      }
    case Array(items) =>
      if |items| == 3 {
        ParseChangesMeaning(items[2], c);
      }
    case _ =>
  }

  /** A `changes` object without `max_category` makes the report fail. */
  lemma MissingMaxCategory(v: Json)
    requires v.Object? && KeyCount(v.members, "changes") == 1
    requires Lookup(v.members, "changes").Object?
    requires KeyCount(Lookup(v.members, "changes").members, "max_category") == 0
    ensures MaxCategory(v).Err?
  {
    if MaxCategory(v).Ok? {
      MaxCategoryMeaning(v, MaxCategory(v).value);
    }
  }

  /** A `max_category` string that names no variant makes the report fail. */
  lemma UnknownCategory(v: Json, name: string)
    requires v.Object? && KeyCount(v.members, "changes") == 1
    requires Lookup(v.members, "changes").Object?
    requires var ms := Lookup(v.members, "changes").members;
      KeyCount(ms, "max_category") == 1 && Lookup(ms, "max_category") == Str(name)
    requires VariantNamed(name).Err?
    ensures MaxCategory(v).Err?
  {
    if MaxCategory(v).Ok? {
      var c := MaxCategory(v).value;
      MaxCategoryMeaning(v, c);
      VariantNamedMeaning(name, c);
    }
  }

  /** The sample report the source documents, a single breaking change. */
  function SampleReport(): Json
  {
    var span := Object([("file", Str("/tmp/testdir/head/src/lib.rs")),
                        ("line_lo", Number("1")), ("line_hi", Number("1")),
                        ("col_lo", Number("0")), ("col_hi", Number("22"))]);
    var change := Object([("name", Str("testa")), ("max_category", Str("Breaking")),
                          ("new_span", span),
                          ("changes", Array([Array([Str("type error: incorrect number of function parameters"), Null])]))]);
    Object([("old_version", Str("0.1.0")), ("new_version", Str("0.1.1")),
            ("changes", Object([("path_changes", Array([])), ("changes", Array([change])),
                                ("max_category", Str("Breaking"))]))])
  }

  /** The sample report is read as `Breaking`. */
  lemma SampleReportIsBreaking()
    ensures MaxCategory(SampleReport()) == Ok(Breaking)
  {
    var ms := SampleReport().members;
    var inner := Lookup(ms, "changes").members;
    assert KeyCount(inner, "max_category") == 1;
    MaxCategoryMeaning(SampleReport(), Breaking);
  }
}
