/**
 * An answer's shape, declared once and used twice: as the JSON Schema sent with the request, and
 * as the check an answer is held to.
 */
module AnswerSchema {
  import opened Options

  /** A JSON number: a whole one as it is written, or one with a point or an exponent. */
  datatype Number = Whole(n: int) | Fraction(r: real)

  datatype Json =
    | JNull
    | JBool(b: bool)
    | JNumber(number: Number)
    | JString(text: string)
    | JArray(items: seq<Json>)
    | JObject(fields: map<string, Json>)

  datatype Kind =
    | Text(max: nat)
    | Choice(choices: seq<string>)
    | Integer(min: int, max_: int)
    | Date
    | Rows(most: nat, fields: seq<Field>)

  datatype Field = Field(name: string, kind: Kind)

  datatype Error = NotAnObject | Missing(name: string) | Unknown | Invalid(name: string)

  datatype Verdict = Good | Bad(error: Error)

  // -------------------------------------------------------------------------
  // The check
  // -------------------------------------------------------------------------

  /** A whole number that fits 64 bits. */
  function AsI64(number: Number): Option<int> {
    if number.Whole? && -0x8000_0000_0000_0000 <= number.n < 0x8000_0000_0000_0000 then Some(number.n) else None
  }

  predicate Plain(fields: seq<Field>) { forall i | 0 <= i < |fields| :: !fields[i].kind.Rows? }

  predicate DepthOk(kind: Kind) { kind.Rows? ==> Plain(kind.fields) }

  predicate HasRows(fields: seq<Field>) { exists j | 0 <= j < |fields| :: fields[j].kind.Rows? }

  /** No rows inside rows. */
  predicate IsFlat(fields: seq<Field>) { forall i | 0 <= i < |fields| :: DepthOk(fields[i].kind) }

  /** Whether a value is what a kind allows; inside rows, an error may come first. */
  datatype Held = Holds(yes: bool) | Fails(error: Error)

  function HoldsFor(kind: Kind, value: Json, flat: bool, isDate: string -> bool): Held
    decreases kind, 0
  {
    match (kind, value)
    case (Text(max), JString(text)) => Holds(|text| <= max)
    case (Choice(choices), JString(text)) => Holds(text in choices)
    case (Integer(min, max), JNumber(number)) =>
      var n := AsI64(number);
      Holds(n.Some? && min <= n.value <= max)
    case (Date, JString(text)) => Holds(text == "" || isDate(text))
    case (Rows(most, fields), JArray(rows)) =>
      if !flat || |rows| > most then Holds(false) else RowsHold(fields, rows, isDate)
    case _ => Holds(false)
  }

  function RowsHold(fields: seq<Field>, rows: seq<Json>, isDate: string -> bool): Held
    decreases fields, 2, |rows|
  {
    if rows == [] then Holds(true)
    else if !rows[0].JObject? then Holds(false)
    else
      var first := CheckFields(fields, rows[0].fields, isDate);
      if first.Bad? then Fails(first.error) else RowsHold(fields, rows[1..], isDate)
  }

  function CheckFields(fields: seq<Field>, entries: map<string, Json>, isDate: string -> bool): Verdict
    decreases fields, 1
  {
    if exists key | key in entries :: forall i | 0 <= i < |fields| :: fields[i].name != key then Bad(Unknown)
    else CheckFrom(fields, 0, entries, isDate)
  }

  function CheckFrom(fields: seq<Field>, i: nat, entries: map<string, Json>, isDate: string -> bool): Verdict
    requires i <= |fields|
    decreases fields, 0, |fields| - i
  {
    if i == |fields| then Good
    else
      var field := fields[i];
      if field.name !in entries then Bad(Missing(field.name))
      else
        var held := HoldsFor(field.kind, entries[field.name], DepthOk(field.kind), isDate);
        if held.Fails? then Bad(held.error)
        else if !held.yes then Bad(Invalid(field.name))
        else CheckFrom(fields, i + 1, entries, isDate)
  }

  function Check(fields: seq<Field>, answer: Json, isDate: string -> bool): Verdict {
    if answer.JObject? then CheckFields(fields, answer.fields, isDate) else Bad(NotAnObject)
  }

  // -------------------------------------------------------------------------
  // The JSON Schema
  // -------------------------------------------------------------------------

  const DATE_PATTERN := "^([0-9]{4}-[0-9]{2}-[0-9]{2})?$"

  /** The last field of a name decides its property, as collecting into a map does. */
  function Properties(fields: seq<Field>, n: nat): map<string, Json>
    requires n <= |fields|
    decreases fields, 0, n
  {
    if n == 0 then map[] else Properties(fields, n - 1)[fields[n - 1].name := Property(fields[n - 1].kind)]
  }

  function Object(fields: seq<Field>): Json
    decreases fields, 1
  {
    JObject(map["type" := JString("object"),
                "properties" := JObject(Properties(fields, |fields|)),
                "required" := JArray(Required(fields)),
                "additionalProperties" := JBool(false)])
  }

  function Property(kind: Kind): Json
    decreases kind, 0
  {
    match kind
    case Text(max) => JObject(map["type" := JString("string"), "maxLength" := JNumber(Whole(max))])
    case Choice(choices) =>
      JObject(map["type" := JString("string"),
                  "enum" := JArray(seq(|choices|, i requires 0 <= i < |choices| => JString(choices[i])))])
    case Integer(min, max) =>
      JObject(map["type" := JString("integer"), "minimum" := JNumber(Whole(min)), "maximum" := JNumber(Whole(max))])
    case Date => JObject(map["type" := JString("string"), "pattern" := JString(DATE_PATTERN)])
    case Rows(most, fields) =>
      JObject(map["type" := JString("array"), "maxItems" := JNumber(Whole(most)), "items" := Object(fields)])
  }

  // -------------------------------------------------------------------------
  // What JSON Schema makes of it
  // -------------------------------------------------------------------------

  function Magnitude(number: Number): real { match number case Whole(n) => n as real case Fraction(r) => r }

  predicate HasType(name: string, v: Json) {
    match v
    case JString(_) => name == "string"
    case JArray(_) => name == "array"
    case JObject(_) => name == "object"
    case JNumber(number) => name == "integer" && (Magnitude(number).Floor as real == Magnitude(number))
    case _ => false
  }

  /** `type`, `enum`, `pattern` and the bounds. A keyword that is absent, or is for another type of
      value, asserts nothing; so everywhere below. `matches` says which texts a pattern matches. */
  predicate BoundsOk(s: map<string, Json>, v: Json, matches: (string, string) -> bool) {
    ("type" in s && s["type"].JString? ==> HasType(s["type"].text, v)) &&
    ("enum" in s && s["enum"].JArray? ==> v in s["enum"].items) &&
    ("maxLength" in s && s["maxLength"].JNumber? && v.JString? ==>
     |v.text| as real <= Magnitude(s["maxLength"].number)) &&
    ("pattern" in s && s["pattern"].JString? && v.JString? ==> matches(s["pattern"].text, v.text)) &&
    ("minimum" in s && s["minimum"].JNumber? && v.JNumber? ==> Magnitude(s["minimum"].number) <= Magnitude(v.number)) &&
    ("maximum" in s && s["maximum"].JNumber? && v.JNumber? ==> Magnitude(v.number) <= Magnitude(s["maximum"].number)) &&
    ("maxItems" in s && s["maxItems"].JNumber? && v.JArray? ==> |v.items| as real <= Magnitude(s["maxItems"].number))
  }

  /** `required`. */
  predicate RequiredOk(s: map<string, Json>, v: Json) {
    "required" in s && s["required"].JArray? && v.JObject? ==>
      forall i | 0 <= i < |s["required"].items| && s["required"].items[i].JString? ::
        s["required"].items[i].text in v.fields
  }

  /** The properties a schema describes. */
  function PropertyMap(s: map<string, Json>): map<string, Json> {
    if "properties" in s && s["properties"].JObject? then s["properties"].fields else map[]
  }

  /** `additionalProperties`, where it is false. */
  predicate NothingElse(s: map<string, Json>, v: Json) {
    "additionalProperties" in s && s["additionalProperties"] == JBool(false) && v.JObject? ==>
      v.fields.Keys <= PropertyMap(s).Keys
  }

  /** The assertions of a schema, keyword by keyword, with `items` and `properties` below them. */
  predicate Validates(schema: Json, v: Json, matches: (string, string) -> bool)
    decreases schema
  {
    schema.JObject? ==>
      var s := schema.fields;
      BoundsOk(s, v, matches) && RequiredOk(s, v) && NothingElse(s, v) &&
      ("items" in s && v.JArray? ==> forall i | 0 <= i < |v.items| :: Validates(s["items"], v.items[i], matches)) &&
      ("properties" in s && s["properties"].JObject? && v.JObject? ==>
         forall name | name in s["properties"].fields && name in v.fields ::
           Validates(s["properties"].fields[name], v.fields[name], matches))
  }

  // -------------------------------------------------------------------------
  // What each comes to
  // -------------------------------------------------------------------------

  ghost predicate Named(fields: seq<Field>, key: string) { exists i :: 0 <= i < |fields| && fields[i].name == key }

  ghost predicate Keeps(field: Field, entries: map<string, Json>, isDate: string -> bool) {
    field.name in entries && HoldsFor(field.kind, entries[field.name], DepthOk(field.kind), isDate) == Holds(true)
  }

  lemma {:induction false} CheckFromIsAll(fields: seq<Field>, i: nat, entries: map<string, Json>,
                                          isDate: string -> bool)
    requires i <= |fields|
    ensures CheckFrom(fields, i, entries, isDate) == Good <==>
            forall k | i <= k < |fields| :: Keeps(fields[k], entries, isDate)
    decreases |fields| - i
  {
    if i < |fields| { CheckFromIsAll(fields, i + 1, entries, isDate); }
  }

  /** An object passes when its keys are the fields' names and every field holds. */
  lemma {:induction false} CheckIsAll(fields: seq<Field>, entries: map<string, Json>, isDate: string -> bool)
    ensures CheckFields(fields, entries, isDate) == Good <==>
      (forall key | key in entries :: Named(fields, key)) &&
      forall k | 0 <= k < |fields| :: Keeps(fields[k], entries, isDate)
  {
    CheckFromIsAll(fields, 0, entries, isDate);
    if key :| key in entries && forall i | 0 <= i < |fields| :: fields[i].name != key {
      assert !Named(fields, key);
    }
  }

  /** What is wrong with a field: it is missing, something in its rows is wrong, or its value is. */
  function Fault(field: Field, entries: map<string, Json>, isDate: string -> bool): Error {
    if field.name !in entries then Missing(field.name)
    else
      match HoldsFor(field.kind, entries[field.name], DepthOk(field.kind), isDate)
      case Fails(error) => error
      case Holds(_) => Invalid(field.name)
  }

  /** The error is the first field's that does not hold, in the order declared. */
  lemma {:induction false} FirstFaultIsTold(fields: seq<Field>, i: nat, entries: map<string, Json>,
                                            isDate: string -> bool, k: nat)
    requires i <= k < |fields| && !Keeps(fields[k], entries, isDate)
    requires forall j | i <= j < k :: Keeps(fields[j], entries, isDate)
    ensures CheckFrom(fields, i, entries, isDate) == Bad(Fault(fields[k], entries, isDate))
    decreases k - i
  {
    if i < k {
      assert Keeps(fields[i], entries, isDate);
      FirstFaultIsTold(fields, i + 1, entries, isDate, k);
    }
  }

  /** What is wrong with a row: it is no object, or what its check says. */
  function RowFault(fields: seq<Field>, row: Json, isDate: string -> bool): Held {
    if !row.JObject? then Holds(false)
    else
      match CheckFields(fields, row.fields, isDate)
      case Bad(error) => Fails(error)
      case Good => Holds(true)
  }

  lemma {:induction false} FirstBadRow(fields: seq<Field>, rows: seq<Json>, isDate: string -> bool, k: nat)
    requires k < |rows| && RowFault(fields, rows[k], isDate) != Holds(true)
    requires forall j | 0 <= j < k :: RowFault(fields, rows[j], isDate) == Holds(true)
    ensures RowsHold(fields, rows, isDate) == RowFault(fields, rows[k], isDate)
    decreases k
  {
    if k > 0 {
      assert RowFault(fields, rows[0], isDate) == Holds(true);
      assert forall j | 1 <= j < |rows| :: rows[1..][j - 1] == rows[j];
      FirstBadRow(fields, rows[1..], isDate, k - 1);
    }
  }

  /** The error inside rows is the first bad row's: the field itself if that row is no object, else what
      is wrong in the row. A value of any other kind is only right or wrong. */
  lemma {:induction false} RowsAreRefusedByTheFirst(field: Field, entries: map<string, Json>, isDate: string -> bool,
                                                    k: nat)
    requires field.name in entries && field.kind.Rows? && !HasRows(field.kind.fields) && entries[field.name].JArray?
    requires |entries[field.name].items| <= field.kind.most && k < |entries[field.name].items|
    requires var rows := entries[field.name].items;
      RowFault(field.kind.fields, rows[k], isDate) != Holds(true) &&
      forall j | 0 <= j < k :: RowFault(field.kind.fields, rows[j], isDate) == Holds(true)
    ensures var row := entries[field.name].items[k];
      Fault(field, entries, isDate) ==
      if row.JObject? then CheckFields(field.kind.fields, row.fields, isDate).error else Invalid(field.name)
  {
    FirstBadRow(field.kind.fields, entries[field.name].items, isDate, k);
    assert DepthOk(field.kind);
  }

  /** What an answer is refused for: not being an object, else a field of no name declared, else the
      first declared field that does not hold. */
  lemma {:induction false} RefusalsAreTold(fields: seq<Field>, answer: Json, isDate: string -> bool)
    ensures Check(fields, answer, isDate) == Bad(NotAnObject) <== !answer.JObject?
    ensures answer.JObject? && (exists key :: key in answer.fields && !Named(fields, key)) ==>
      Check(fields, answer, isDate) == Bad(Unknown)
    ensures answer.JObject? && (forall key | key in answer.fields :: Named(fields, key)) ==>
      forall k: nat | k < |fields| && !Keeps(fields[k], answer.fields, isDate) &&
        (forall j | 0 <= j < k :: Keeps(fields[j], answer.fields, isDate)) ::
        Check(fields, answer, isDate) == Bad(Fault(fields[k], answer.fields, isDate))
  {
    if answer.JObject? {
      if forall key | key in answer.fields :: Named(fields, key) {
        forall k: nat | k < |fields| && !Keeps(fields[k], answer.fields, isDate) &&
          (forall j | 0 <= j < k :: Keeps(fields[j], answer.fields, isDate))
          ensures Check(fields, answer, isDate) == Bad(Fault(fields[k], answer.fields, isDate))
        {
          FirstFaultIsTold(fields, 0, answer.fields, isDate, k);
        }
      } else {
        var key :| key in answer.fields && !Named(fields, key);
        assert forall i | 0 <= i < |fields| :: fields[i].name != key;
      }
    }
  }

  lemma {:induction false} RowsAreAll(fields: seq<Field>, rows: seq<Json>, isDate: string -> bool)
    ensures RowsHold(fields, rows, isDate) == Holds(true) <==>
      forall k | 0 <= k < |rows| :: rows[k].JObject? && CheckFields(fields, rows[k].fields, isDate) == Good
    decreases |rows|
  {
    if rows != [] {
      RowsAreAll(fields, rows[1..], isDate);
      assert forall k | 1 <= k < |rows| :: rows[k] == rows[1..][k - 1];
    }
  }

  lemma {:induction false} PropertiesAreTheFields(fields: seq<Field>, n: nat)
    requires n <= |fields|
    ensures forall i | 0 <= i < n :: fields[i].name in Properties(fields, n)
    ensures forall key | key in Properties(fields, n) ::
      exists i :: 0 <= i < n && fields[i].name == key && Properties(fields, n)[key] == Property(fields[i].kind)
  {
    if n > 0 {
      PropertiesAreTheFields(fields, n - 1);
      forall key | key in Properties(fields, n)
        ensures exists i :: 0 <= i < n && fields[i].name == key &&
                            Properties(fields, n)[key] == Property(fields[i].kind)
      {
        if key == fields[n - 1].name {
          assert Properties(fields, n)[key] == Property(fields[n - 1].kind);
        } else {
          var i :| 0 <= i < n - 1 && fields[i].name == key &&
            Properties(fields, n - 1)[key] == Property(fields[i].kind);
          assert Properties(fields, n)[key] == Property(fields[i].kind);
        }
      }
    }
  }

  function Required(fields: seq<Field>): seq<Json> {
    seq(|fields|, i requires 0 <= i < |fields| => JString(fields[i].name))
  }

  lemma {:induction false} ObjectKeywords(fields: seq<Field>)
    ensures var s := Object(fields).fields;
      s.Keys == {"type", "properties", "required", "additionalProperties"} &&
      s["type"] == JString("object") && s["required"] == JArray(Required(fields)) &&
      s["properties"] == JObject(Properties(fields, |fields|)) && s["additionalProperties"] == JBool(false)
  {
  }

  lemma {:induction false} AllRequired(fields: seq<Field>, entries: map<string, Json>)
    ensures (forall i | 0 <= i < |Required(fields)| && Required(fields)[i].JString? ::
               Required(fields)[i].text in entries) <==>
            forall i | 0 <= i < |fields| :: fields[i].name in entries
  {
    assert forall i | 0 <= i < |fields| :: Required(fields)[i] == JString(fields[i].name);
  }

  lemma {:induction false} NoBounds(s: map<string, Json>, v: Json, matches: (string, string) -> bool)
    requires s.Keys == {"type", "properties", "required", "additionalProperties"} && s["type"] == JString("object")
    ensures BoundsOk(s, v, matches) <==> v.JObject?
  {
    assert "type" in s.Keys && "enum" !in s.Keys && "maxItems" !in s.Keys;
    assert "minimum" !in s.Keys && "maximum" !in s.Keys && "maxLength" !in s.Keys && "pattern" !in s.Keys;
    assert HasType("object", v) <==> v.JObject?;
  }

  lemma {:induction false} ObjectSchema(s: map<string, Json>, required: seq<Json>, properties: map<string, Json>,
                                        v: Json, matches: (string, string) -> bool)
    requires s.Keys == {"type", "properties", "required", "additionalProperties"} && s["type"] == JString("object")
    requires s["required"] == JArray(required) && s["properties"] == JObject(properties) &&
      s["additionalProperties"] == JBool(false)
    ensures Validates(JObject(s), v, matches) <==>
      v.JObject? &&
      (forall name | name in v.fields :: name in properties && Validates(properties[name], v.fields[name], matches)) &&
      forall i | 0 <= i < |required| && required[i].JString? :: required[i].text in v.fields
  {
    NoBounds(s, v, matches);
    assert "items" !in s.Keys;
  }

  /** The emitted schema of an object allows exactly the objects with every field, no other, each
      valid under its property. */
  lemma {:induction false} ObjectAllows(fields: seq<Field>, v: Json, matches: (string, string) -> bool)
    ensures Validates(Object(fields), v, matches) <==>
      v.JObject? &&
      (forall name | name in v.fields :: name in Properties(fields, |fields|) &&
                                         Validates(Properties(fields, |fields|)[name], v.fields[name], matches)) &&
      forall i | 0 <= i < |fields| :: fields[i].name in v.fields
  {
    ObjectKeywords(fields);
    ObjectSchema(Object(fields).fields, Required(fields), Properties(fields, |fields|), v, matches);
    if v.JObject? { AllRequired(fields, v.fields); }
  }

  // -------------------------------------------------------------------------
  // The two uses agree
  // -------------------------------------------------------------------------

  predicate NoDates(kind: Kind) {
    match kind
    case Date => false
    case Rows(_, fields) => AllNoDates(fields)
    case _ => true
  }

  predicate AllNoDates(fields: seq<Field>) { forall i | 0 <= i < |fields| :: NoDates(fields[i].kind) }

  /** Every text the check takes for a date matches the pattern that was sent. */
  ghost predicate DatesFit(isDate: string -> bool, matches: (string, string) -> bool) {
    forall text: string | text == "" || isDate(text) :: matches(DATE_PATTERN, text)
  }

  /** And no other text does. */
  ghost predicate DatesAgree(isDate: string -> bool, matches: (string, string) -> bool) {
    forall text: string :: text == "" || isDate(text) <==> matches(DATE_PATTERN, text)
  }

  /** Every number in it is written whole. */
  predicate WholeNumbers(v: Json) {
    match v
    case JNumber(number) => number.Whole?
    case JArray(items) => forall i | 0 <= i < |items| :: WholeNumbers(items[i])
    case JObject(fields) => forall key | key in fields :: WholeNumbers(fields[key])
    case _ => true
  }

  lemma {:induction false} PropertyAllowsScalar(kind: Kind, v: Json, isDate: string -> bool,
                                                matches: (string, string) -> bool)
    requires !kind.Rows? && (kind.Date? ==> DatesFit(isDate, matches))
    requires HoldsFor(kind, v, true, isDate) == Holds(true)
    ensures Validates(Property(kind), v, matches) && WholeNumbers(v)
  {
    match kind
    case Date =>
      assert HasType("string", v);
    case Text(max) =>
      assert HasType("string", v);
    case Choice(choices) =>
      var i :| 0 <= i < |choices| && choices[i] == v.text;
      var all := seq(|choices|, i requires 0 <= i < |choices| => JString(choices[i]));
      assert all[i] == v && Property(kind).fields["enum"] == JArray(all);
    case Integer(min, max) =>
      assert HasType("integer", v);
  }

  /** Whatever a kind's check accepts, its property allows. */
  lemma {:induction false} HeldIsValid(kind: Kind, v: Json, isDate: string -> bool,
                                       matches: (string, string) -> bool)
    requires (NoDates(kind) || DatesFit(isDate, matches)) && HoldsFor(kind, v, DepthOk(kind), isDate) == Holds(true)
    ensures Validates(Property(kind), v, matches) && WholeNumbers(v)
    decreases kind, 0
  {
    if kind.Rows? {
      RowsAreAll(kind.fields, v.items, isDate);
      forall i | 0 <= i < |v.items|
        ensures Validates(Object(kind.fields), v.items[i], matches) && WholeNumbers(v.items[i])
      {
        CheckedIsValid(kind.fields, v.items[i].fields, isDate, matches);
      }
      RowsAllow(kind, v, matches);
    } else {
      PropertyAllowsScalar(kind, v, isDate, matches);
    }
  }

  lemma {:induction false} RowsAllow(kind: Kind, v: Json, matches: (string, string) -> bool)
    requires kind.Rows?
    ensures Validates(Property(kind), v, matches) <==>
      v.JArray? && |v.items| <= kind.most &&
      forall i | 0 <= i < |v.items| :: Validates(Object(kind.fields), v.items[i], matches)
  {
    var s := Property(kind).fields;
    assert s["type"] == JString("array") && s["maxItems"] == JNumber(Whole(kind.most)) &&
      s["items"] == Object(kind.fields);
    assert "enum" !in s && "properties" !in s && "required" !in s && "additionalProperties" !in s;
    assert "minimum" !in s && "maximum" !in s && "maxLength" !in s && "pattern" !in s;
  }

  lemma {:induction false} CheckedIsValid(fields: seq<Field>, entries: map<string, Json>, isDate: string -> bool,
                                          matches: (string, string) -> bool)
    requires (AllNoDates(fields) || DatesFit(isDate, matches)) && CheckFields(fields, entries, isDate) == Good
    ensures Validates(Object(fields), JObject(entries), matches) && WholeNumbers(JObject(entries))
    decreases fields, 1
  {
    CheckIsAll(fields, entries, isDate);
    PropertiesAreTheFields(fields, |fields|);
    var all := Properties(fields, |fields|);
    forall name | name in entries
      ensures name in all && Validates(all[name], entries[name], matches) && WholeNumbers(entries[name])
    {
      assert Named(fields, name);
      var i :| 0 <= i < |fields| && fields[i].name == name && all[name] == Property(fields[i].kind);
      assert Keeps(fields[i], entries, isDate);
      HeldIsValid(fields[i].kind, entries[name], isDate, matches);
    }
    assert forall i | 0 <= i < |fields| :: Keeps(fields[i], entries, isDate);
    ObjectAllows(fields, JObject(entries), matches);
  }

  /** Every answer the check believes is valid under the schema the request carried, for every
      declaration without a date, and for every one at all if dates fit the pattern. */
  lemma {:induction false} BelievedIsValid(fields: seq<Field>, answer: Json, isDate: string -> bool,
                                           matches: (string, string) -> bool)
    requires AllNoDates(fields) || DatesFit(isDate, matches)
    requires Check(fields, answer, isDate) == Good
    ensures Validates(Object(fields), answer, matches) && WholeNumbers(answer)
  {
    CheckedIsValid(fields, answer.fields, isDate, matches);
  }

  /** Names that differ, at each level, and bounds that fit their type. */
  predicate WellDeclared(kind: Kind) {
    match kind
    case Integer(min, max) => -0x8000_0000_0000_0000 <= min && max < 0x8000_0000_0000_0000
    case Rows(_, fields) => AllWellDeclared(fields)
    case _ => true
  }

  predicate AllWellDeclared(fields: seq<Field>) {
    (forall i, j | 0 <= i < j < |fields| :: fields[i].name != fields[j].name) &&
    forall i | 0 <= i < |fields| :: WellDeclared(fields[i].kind)
  }

  lemma {:induction false} ScalarIsAllowedBack(kind: Kind, v: Json, isDate: string -> bool,
                                               matches: (string, string) -> bool)
    requires !kind.Rows? && (kind.Date? ==> DatesAgree(isDate, matches))
    requires WellDeclared(kind) && Validates(Property(kind), v, matches) && WholeNumbers(v)
    ensures HoldsFor(kind, v, true, isDate) == Holds(true)
  {
    var s := Property(kind).fields;
    match kind
    case Date =>
      assert s["type"] == JString("string") && s["pattern"] == JString(DATE_PATTERN);
      assert HasType("string", v);
    case Text(max) =>
      assert s["type"] == JString("string") && s["maxLength"] == JNumber(Whole(max));
      assert HasType("string", v);
    case Choice(choices) =>
      var all := seq(|choices|, i requires 0 <= i < |choices| => JString(choices[i]));
      assert s["type"] == JString("string") && s["enum"] == JArray(all);
      assert HasType("string", v) && v in all;
    case Integer(min, max) =>
      assert s["type"] == JString("integer") && s["minimum"] == JNumber(Whole(min)) &&
        s["maximum"] == JNumber(Whole(max));
      assert HasType("integer", v);
  }

  lemma {:induction false} ValidIsHeld(kind: Kind, v: Json, isDate: string -> bool,
                                       matches: (string, string) -> bool)
    requires (NoDates(kind) || DatesAgree(isDate, matches)) && WellDeclared(kind) && DepthOk(kind)
    requires Validates(Property(kind), v, matches) && WholeNumbers(v)
    ensures HoldsFor(kind, v, DepthOk(kind), isDate) == Holds(true)
    decreases kind, 0
  {
    if kind.Rows? {
      RowsAllow(kind, v, matches);
      forall i | 0 <= i < |v.items|
        ensures v.items[i].JObject? && CheckFields(kind.fields, v.items[i].fields, isDate) == Good
      {
        ObjectAllows(kind.fields, v.items[i], matches);
        ValidIsChecked(kind.fields, v.items[i].fields, isDate, matches);
      }
      RowsAreAll(kind.fields, v.items, isDate);
    } else {
      ScalarIsAllowedBack(kind, v, isDate, matches);
    }
  }

  lemma {:induction false} ValidIsChecked(fields: seq<Field>, entries: map<string, Json>, isDate: string -> bool,
                                          matches: (string, string) -> bool)
    requires (AllNoDates(fields) || DatesAgree(isDate, matches)) && AllWellDeclared(fields) && IsFlat(fields)
    requires Validates(Object(fields), JObject(entries), matches) && WholeNumbers(JObject(entries))
    ensures CheckFields(fields, entries, isDate) == Good
    decreases fields, 1
  {
    ObjectAllows(fields, JObject(entries), matches);
    PropertiesAreTheFields(fields, |fields|);
    var all := Properties(fields, |fields|);
    forall k | 0 <= k < |fields| ensures Keeps(fields[k], entries, isDate) {
      var name := fields[k].name;
      assert name in entries && Validates(all[name], entries[name], matches);
      var i :| 0 <= i < |fields| && fields[i].name == name && all[name] == Property(fields[i].kind);
      assert i == k;
      ValidIsHeld(fields[k].kind, entries[name], isDate, matches);
    }
    forall key | key in entries ensures Named(fields, key) {
      var i :| 0 <= i < |fields| && fields[i].name == key && all[key] == Property(fields[i].kind);
    }
    CheckIsAll(fields, entries, isDate);
  }

  /** For a flat declaration with names that differ and bounds of 64 bits, without dates or with dates
      read as the pattern has them, the check believes exactly the answers that are valid under the
      emitted schema and write their numbers whole. */
  lemma {:induction false} BelievedIffValid(fields: seq<Field>, answer: Json, isDate: string -> bool,
                                            matches: (string, string) -> bool)
    requires (AllNoDates(fields) || DatesAgree(isDate, matches)) && AllWellDeclared(fields) && !RowsInRows(fields)
    ensures Check(fields, answer, isDate) == Good <==>
            Validates(Object(fields), answer, matches) && WholeNumbers(answer)
  {
    FlatMeans(fields);
    if Check(fields, answer, isDate) == Good {
      BelievedIsValid(fields, answer, isDate, matches);
    }
    if Validates(Object(fields), answer, matches) && WholeNumbers(answer) {
      ObjectAllows(fields, answer, matches);
      ValidIsChecked(fields, answer.fields, isDate, matches);
    }
  }

  lemma {:induction false} OtherDateKeeps(k: Field, field: Field, entries: map<string, Json>, text: string,
                                          isDate: string -> bool)
    requires k.kind.Date? && (text == "" || isDate(text)) && (field == k || field.name != k.name)
    requires Keeps(field, entries, isDate)
    ensures Keeps(field, entries[k.name := JString(text)], isDate)
  {
    var others := entries[k.name := JString(text)];
    if field == k {
      assert others[k.name] == JString(text);
    } else {
      assert others[field.name] == entries[field.name];
    }
  }

  /** An answer with one date put for another is believed as well. */
  lemma {:induction false} OtherDateIsBelieved(fields: seq<Field>, k: nat, entries: map<string, Json>, text: string,
                                               isDate: string -> bool)
    requires AllWellDeclared(fields) && k < |fields| && fields[k].kind.Date? && (text == "" || isDate(text))
    requires CheckFields(fields, entries, isDate) == Good
    ensures CheckFields(fields, entries[fields[k].name := JString(text)], isDate) == Good
  {
    var others := entries[fields[k].name := JString(text)];
    CheckIsAll(fields, entries, isDate);
    forall key | key in others ensures Named(fields, key) {
      if key == fields[k].name {
        assert 0 <= k < |fields| && fields[k].name == key;
      } else {
        assert key in entries;
      }
    }
    forall i | 0 <= i < |fields| ensures Keeps(fields[i], others, isDate) {
      assert Keeps(fields[i], entries, isDate);
      assert i == k || fields[i].name != fields[k].name;
      OtherDateKeeps(fields[k], fields[i], entries, text, isDate);
    }
    CheckIsAll(fields, others, isDate);
  }

  lemma {:induction false} DatePropertyDecides(fields: seq<Field>, k: nat, text: string, entries: map<string, Json>,
                                               matches: (string, string) -> bool)
    requires AllWellDeclared(fields) && k < |fields| && fields[k].kind.Date?
    requires fields[k].name in entries && entries[fields[k].name] == JString(text)
    requires Validates(Object(fields), JObject(entries), matches)
    ensures matches(DATE_PATTERN, text)
  {
    var all, name := Properties(fields, |fields|), fields[k].name;
    ObjectAllows(fields, JObject(entries), matches);
    PropertiesAreTheFields(fields, |fields|);
    var i :| 0 <= i < |fields| && fields[i].name == name && all[name] == Property(fields[i].kind);
    assert i == k;
    var s := Property(Date).fields;
    assert s["pattern"] == JString(DATE_PATTERN);
    assert Validates(JObject(s), entries[name], matches);
    assert BoundsOk(s, entries[name], matches);
  }

  /** Everything the check believes is valid under the emitted schema. */
  ghost predicate UsesAgree(fields: seq<Field>, isDate: string -> bool, matches: (string, string) -> bool) {
    forall a | Check(fields, a, isDate) == Good :: Validates(Object(fields), a, matches)
  }

  lemma {:induction false} AgreementFitsDates(fields: seq<Field>, k: nat, answer: Json, text: string,
                                              isDate: string -> bool, matches: (string, string) -> bool)
    requires AllWellDeclared(fields) && k < |fields| && fields[k].kind.Date?
    requires Check(fields, answer, isDate) == Good && UsesAgree(fields, isDate, matches)
    requires text == "" || isDate(text)
    ensures matches(DATE_PATTERN, text)
  {
    OtherDateIsBelieved(fields, k, answer.fields, text, isDate);
    DatePropertyDecides(fields, k, text, answer.fields[fields[k].name := JString(text)], matches);
  }

  /** A declaration with a date, of which some answer is believed: everything the check believes is
      valid under the emitted schema exactly when every text taken for a date matches the pattern. */
  lemma {:induction false} DatesDecideAgreement(fields: seq<Field>, k: nat, answer: Json, isDate: string -> bool,
                                                matches: (string, string) -> bool)
    requires AllWellDeclared(fields) && k < |fields| && fields[k].kind.Date?
    requires Check(fields, answer, isDate) == Good
    ensures UsesAgree(fields, isDate, matches) <==> DatesFit(isDate, matches)
  {
    if DatesFit(isDate, matches) {
      forall a | Check(fields, a, isDate) == Good ensures Validates(Object(fields), a, matches) {
        BelievedIsValid(fields, a, isDate, matches);
      }
    }
    if UsesAgree(fields, isDate, matches) {
      forall text: string | text == "" || isDate(text) ensures matches(DATE_PATTERN, text) {
        AgreementFitsDates(fields, k, answer, text, isDate, matches);
      }
    }
  }

  /** All declarations, dates and all: the two uses agree on what is believed exactly when every text
      taken for a date matches the pattern. */
  lemma {:induction false} AgreementIsAboutDates(isDate: string -> bool, matches: (string, string) -> bool)
    ensures (forall fields: seq<Field> :: UsesAgree(fields, isDate, matches)) <==> DatesFit(isDate, matches)
  {
    if DatesFit(isDate, matches) {
      forall fields: seq<Field>, a: Json | Check(fields, a, isDate) == Good
        ensures Validates(Object(fields), a, matches)
      {
        BelievedIsValid(fields, a, isDate, matches);
      }
    }
    var dated, entries := [Field("date", Date)], map["date" := JString("")];
    CheckIsAll(dated, entries, isDate);
    assert dated[0].name == "date";
    assert Named(dated, "date") && Keeps(dated[0], entries, isDate);
    assert Check(dated, JObject(entries), isDate) == Good;
    DatesDecideAgreement(dated, 0, JObject(entries), isDate, matches);
  }

  /** Some field's rows have a field that is rows again. */
  predicate RowsInRows(fields: seq<Field>) {
    exists i | 0 <= i < |fields| && fields[i].kind.Rows? :: HasRows(fields[i].kind.fields)
  }

  lemma {:induction false} FlatMeans(fields: seq<Field>)
    ensures IsFlat(fields) <==> !RowsInRows(fields)
  {
    if RowsInRows(fields) {
      var i :| 0 <= i < |fields| && fields[i].kind.Rows? && HasRows(fields[i].kind.fields);
      assert !DepthOk(fields[i].kind);
    } else {
      forall i | 0 <= i < |fields| ensures DepthOk(fields[i].kind) {
        if fields[i].kind.Rows? { assert !HasRows(fields[i].kind.fields); }
      }
    }
  }

  /** A declaration with rows inside rows believes no answer at all. */
  lemma {:induction false} DeepSchemasBelieveNothing(fields: seq<Field>, answer: Json, isDate: string -> bool)
    requires RowsInRows(fields)
    ensures Check(fields, answer, isDate).Bad?
  {
    FlatMeans(fields);
    if answer.JObject? {
      CheckIsAll(fields, answer.fields, isDate);
      var i :| 0 <= i < |fields| && !DepthOk(fields[i].kind);
      assert !Keeps(fields[i], answer.fields, isDate);
    }
  }
}
