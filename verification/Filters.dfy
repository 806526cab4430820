/**
  The two request forms of a payload filter and their conversion to the engine's filter
  tree (crates/turbomemory_api/src/service.rs). A JSON number is an exact real, and parsing
  the JSON text inside a protobuf value is a parameter.
 */
module Filters {
  import opened Wrappers

  const MAX_FILTER_DEPTH: nat := 32

  datatype Json =
    | Null
    | Bool(b: bool)
    | Number(x: real)
    | Str(s: string)
    | Arr(items: seq<Json>)
    | Obj(fields: map<string, Json>)

  datatype Bound = Unbounded | Included(v: real) | Excluded(v: real)

  /** The engine's filter tree. */
  datatype Filter =
    | Eq(field: string, value: Json)
    | Range(field: string, low: Bound, high: Bound)
    | FullText(field: string, query: string)
    | And(parts: seq<Filter>)
    | Or(parts: seq<Filter>)
    | Not(part: Filter)

  /** The protobuf message; `Empty` has no kind set. */
  datatype Pb =
    | Empty
    | PbEq(field: string, valueJson: string)
    | PbRange(field: string, low: Option<real>, high: Option<real>, lowInclusive: bool, highInclusive: bool)
    | PbFullText(field: string, query: string)
    | PbAnd(parts: seq<Pb>)
    | PbOr(parts: seq<Pb>)
    | PbNot(part: Pb)

  datatype FilterError = TooDeep | EmptyFilter | BadValue | NotAnObject | MissingOp | MissingField | MissingQuery
                       | MissingFilters | MissingFilter | UnknownOp

  type Converted = Result<Filter, FilterError>

  function Max(a: nat, b: nat): (r: nat)
  {
    if a < b then b else a
  }

  /** Nesting levels of a filter tree: a leaf has one. */
  function Levels(f: Filter): (n: nat)
    ensures n >= 1
    decreases f, 0
  {
    match f
    case And(parts) => 1 + LevelsOf(parts)
    case Or(parts) => 1 + LevelsOf(parts)
    case Not(part) => 1 + Levels(part)
    case _ => 1
  }

  function LevelsOf(parts: seq<Filter>): (n: nat)
    decreases parts, 1
  {
    if parts == [] then 0 else Max(Levels(parts[0]), LevelsOf(parts[1..]))
  }

  function MakeBound(v: Option<real>, inclusive: bool): (b: Bound)
  {
    if v.None? then Unbounded else if inclusive then Included(v.value) else Excluded(v.value)
  }

  // ----- protobuf -----------------------------------------------------------------------------

  /** `convert_pb_filter`. */
  function FromPb(p: Pb, parse: string -> Option<Json>, depth: nat): (r: Converted)
    decreases p, 0
  {
    if depth >= MAX_FILTER_DEPTH then Err(TooDeep)
    else
      match p
      case Empty => Err(EmptyFilter)
      case PbEq(field, text) => if parse(text).None? then Err(BadValue) else Ok(Eq(field, parse(text).value))
      case PbRange(field, low, high, li, hi) => Ok(Range(field, MakeBound(low, li), MakeBound(high, hi)))
      case PbFullText(field, query) => Ok(FullText(field, query))
      case PbAnd(parts) =>
        var all := FromPbs(parts, parse, depth + 1);
        if all.Err? then Err(all.error) else Ok(And(all.value))
      case PbOr(parts) =>
        var all := FromPbs(parts, parse, depth + 1);
        if all.Err? then Err(all.error) else Ok(Or(all.value))
      case PbNot(part) =>
        var inner := FromPb(part, parse, depth + 1);
        if inner.Err? then inner else Ok(Not(inner.value))
  }

  /** `collect` into a result: the first error, if any, wins. */
  function FromPbs(parts: seq<Pb>, parse: string -> Option<Json>, depth: nat): (r: Result<seq<Filter>, FilterError>)
    decreases parts, 1
  {
    if parts == [] then Ok([])
    else
      var first := FromPb(parts[0], parse, depth);
      if first.Err? then Err(first.error)
      else
        var rest := FromPbs(parts[1..], parse, depth);
        if rest.Err? then rest else Ok([first.value] + rest.value)
  }

  /** The value of a finite bound. */
  function ValueOf(b: Bound): (v: Option<real>)
  {
    if b.Unbounded? then None else Some(b.v)
  }

  /** Writing a filter as a protobuf message; an open end may carry either flag. */
  function ToPb(f: Filter, show: Json -> string, open: bool): (p: Pb)
    decreases f, 0
  {
    match f
    case Eq(field, value) => PbEq(field, show(value))
    case Range(field, low, high) =>
      PbRange(field, ValueOf(low), ValueOf(high), if low.Unbounded? then open else low.Included?,
              if high.Unbounded? then open else high.Included?)
    case FullText(field, query) => PbFullText(field, query)
    case And(parts) => PbAnd(ToPbs(parts, show, open))
    case Or(parts) => PbOr(ToPbs(parts, show, open))
    case Not(part) => PbNot(ToPb(part, show, open))
  }

  function ToPbs(parts: seq<Filter>, show: Json -> string, open: bool): (r: seq<Pb>)
    ensures |r| == |parts|
    decreases parts, 1
  {
    if parts == [] then [] else [ToPb(parts[0], show, open)] + ToPbs(parts[1..], show, open)
  }

  /** The values this filter compares with are printed so that they parse back. */
  predicate Reads(f: Filter, parse: string -> Option<Json>, show: Json -> string)
    decreases f, 0
  {
    match f
    case Eq(_, value) => parse(show(value)) == Some(value)
    case And(parts) => AllRead(parts, parse, show)
    case Or(parts) => AllRead(parts, parse, show)
    case Not(part) => Reads(part, parse, show)
    case _ => true
  }

  predicate AllRead(parts: seq<Filter>, parse: string -> Option<Json>, show: Json -> string)
    decreases parts, 1
  {
    parts == [] || (Reads(parts[0], parse, show) && AllRead(parts[1..], parse, show))
  }

  /** A written filter converts back to itself exactly when it is at most 32 levels deep. */
  lemma {:induction false} PbRoundTrip(f: Filter, parse: string -> Option<Json>, show: Json -> string, open: bool, depth: nat)
    requires Reads(f, parse, show)
    ensures FromPb(ToPb(f, show, open), parse, depth)
            == if depth + Levels(f) <= MAX_FILTER_DEPTH then Ok(f) else Err(TooDeep)
    decreases f, 0
  {
    if depth < MAX_FILTER_DEPTH {
      match f {
        case And(parts) => PbsRoundTrip(parts, parse, show, open, depth + 1);
        case Or(parts) => PbsRoundTrip(parts, parse, show, open, depth + 1);
        case Not(part) => PbRoundTrip(part, parse, show, open, depth + 1);
        case _ =>
      }
    }
  }

  lemma {:induction false} PbsRoundTrip(parts: seq<Filter>, parse: string -> Option<Json>, show: Json -> string, open: bool, depth: nat)
    requires AllRead(parts, parse, show)
    ensures FromPbs(ToPbs(parts, show, open), parse, depth)
            == if depth + LevelsOf(parts) <= MAX_FILTER_DEPTH || parts == [] then Ok(parts) else Err(TooDeep)
    decreases parts, 1
  {
    if parts != [] {
      PbRoundTrip(parts[0], parse, show, open, depth);
      PbsRoundTrip(parts[1..], parse, show, open, depth);
      assert [parts[0]] + parts[1..] == parts;
      assert ToPbs(parts, show, open)[1..] == ToPbs(parts[1..], show, open);
    }
  }

  // ----- JSON ---------------------------------------------------------------------------------

  /** `obj.get(name)`. */
  function Get(fields: map<string, Json>, name: string): (v: Option<Json>)
  {
    if name in fields then Some(fields[name]) else None
  }

  function AsStr(v: Option<Json>): (r: Option<string>)
  {
    if v.Some? && v.value.Str? then Some(v.value.s) else None
  }

  function AsNumber(v: Option<Json>): (r: Option<real>)
  {
    if v.Some? && v.value.Number? then Some(v.value.x) else None
  }

  /** Absent or not a boolean counts as true. */
  function AsFlag(v: Option<Json>): (r: bool)
  {
    v.Some? && v.value.Bool? ==> v.value.b
  }

  /** `convert_json_filter`. */
  function FromJson(v: Json, depth: nat): (r: Converted)
    decreases MAX_FILTER_DEPTH - depth, 0, 0
  {
    if depth >= MAX_FILTER_DEPTH then Err(TooDeep)
    else if !v.Obj? then Err(NotAnObject)
    else
      var o := v.fields;
      var op := AsStr(Get(o, "op"));
      if op.None? then Err(MissingOp)
      else if op.value == "eq" then
        if AsStr(Get(o, "field")).None? then Err(MissingField)
        else Ok(Eq(AsStr(Get(o, "field")).value, if "value" in o then o["value"] else Null))
      else if op.value == "range" then
        if AsStr(Get(o, "field")).None? then Err(MissingField)
        else Ok(Range(AsStr(Get(o, "field")).value,
                      MakeBound(AsNumber(Get(o, "low")), AsFlag(Get(o, "low_inclusive"))),
                      MakeBound(AsNumber(Get(o, "high")), AsFlag(Get(o, "high_inclusive")))))
      else if op.value == "full_text" then
        if AsStr(Get(o, "field")).None? then Err(MissingField)
        else if AsStr(Get(o, "query")).None? then Err(MissingQuery)
        else Ok(FullText(AsStr(Get(o, "field")).value, AsStr(Get(o, "query")).value))
      else if op.value == "and" || op.value == "or" then
        if "filters" !in o || !o["filters"].Arr? then Err(MissingFilters)
        else
          var all := FromJsons(o["filters"].items, depth + 1);
          if all.Err? then Err(all.error) else Ok(if op.value == "and" then And(all.value) else Or(all.value))
      else if op.value == "not" then
        if "filter" !in o then Err(MissingFilter)
        else
          var inner := FromJson(o["filter"], depth + 1);
          if inner.Err? then inner else Ok(Not(inner.value))
      else Err(UnknownOp)
  }

  function FromJsons(items: seq<Json>, depth: nat): (r: Result<seq<Filter>, FilterError>)
    decreases MAX_FILTER_DEPTH - depth, 1, |items|
  {
    if items == [] then Ok([])
    else
      var first := FromJson(items[0], depth);
      if first.Err? then Err(first.error)
      else
        var rest := FromJsons(items[1..], depth);
        if rest.Err? then rest else Ok([first.value] + rest.value)
  }

  /** One end of a range: the number when there is one, and the flag. */
  function EndFields(name: string, flag: string, b: Bound, open: bool): (r: map<string, Json>)
  {
    match b
    case Unbounded => map[flag := Bool(open)]
    case Included(x) => map[name := Number(x), flag := Bool(true)]
    case Excluded(x) => map[name := Number(x), flag := Bool(false)]
  }

  /** Writing a filter as JSON; an open end may carry either flag. */
  function ToJson(f: Filter, open: bool): (v: Json)
    decreases f, 0
  {
    match f
    case Eq(field, value) => Obj(map["op" := Str("eq"), "field" := Str(field), "value" := value])
    case Range(field, low, high) =>
      Obj(map["op" := Str("range"), "field" := Str(field)]
          + EndFields("low", "low_inclusive", low, open) + EndFields("high", "high_inclusive", high, open))
    case FullText(field, query) => Obj(map["op" := Str("full_text"), "field" := Str(field), "query" := Str(query)])
    case And(parts) => Obj(map["op" := Str("and"), "filters" := Arr(ToJsons(parts, open))])
    case Or(parts) => Obj(map["op" := Str("or"), "filters" := Arr(ToJsons(parts, open))])
    case Not(part) => Obj(map["op" := Str("not"), "filter" := ToJson(part, open)])
  }

  function ToJsons(parts: seq<Filter>, open: bool): (r: seq<Json>)
    ensures |r| == |parts|
    decreases parts, 1
  {
    if parts == [] then [] else [ToJson(parts[0], open)] + ToJsons(parts[1..], open)
  }

  /** What is read from one end of a range, whatever the other fields are. */
  lemma {:induction false} EndReads(name: string, flag: string, b: Bound, open: bool)
    requires name != flag
    ensures var o := EndFields(name, flag, b, open);
            && MakeBound(AsNumber(Get(o, name)), AsFlag(Get(o, flag))) == b
            && flag in o && o.Keys <= {name, flag}
  {
  }

  lemma {:induction false} Keys()
    ensures "low" != "op" && "low" != "field" && "low" != "high" && "low" != "low_inclusive" && "low" != "high_inclusive"
    ensures "high" != "op" && "high" != "field" && "high" != "low_inclusive" && "high" != "high_inclusive"
    ensures "low_inclusive" != "op" && "low_inclusive" != "field" && "low_inclusive" != "high_inclusive"
    ensures "high_inclusive" != "op" && "high_inclusive" != "field" && "op" != "field"
  {
  }

  /** Fields written together do not disturb each other. */
  lemma {:induction false} RangeFields(field: string, low: map<string, Json>, high: map<string, Json>)
    requires low.Keys <= {"low", "low_inclusive"} && high.Keys <= {"high", "high_inclusive"}
    ensures var o := map["op" := Str("range"), "field" := Str(field)] + low + high;
            && Get(o, "op") == Some(Str("range")) && Get(o, "field") == Some(Str(field))
            && Get(o, "low") == Get(low, "low") && Get(o, "low_inclusive") == Get(low, "low_inclusive")
            && Get(o, "high") == Get(high, "high") && Get(o, "high_inclusive") == Get(high, "high_inclusive")
  {
    Keys();
  }

  lemma {:induction false} RangeReads(field: string, low: Bound, high: Bound, open: bool, depth: nat)
    requires depth < MAX_FILTER_DEPTH
    ensures FromJson(ToJson(Range(field, low, high), open), depth) == Ok(Range(field, low, high))
  {
    hide EndFields, Get, MakeBound, AsNumber, AsFlag;
    Keys();
    EndReads("low", "low_inclusive", low, open);
    EndReads("high", "high_inclusive", high, open);
    RangeFields(field, EndFields("low", "low_inclusive", low, open), EndFields("high", "high_inclusive", high, open));
  }

  /**
    What any range object means, however it is written: an end without a number is open, and
    a number is included unless its flag says false.
   */
  lemma {:induction false} RangeMeans(o: map<string, Json>, field: string, depth: nat)
    requires depth < 32 && "op" in o && o["op"] == Str("range") && "field" in o && o["field"] == Str(field)
    ensures FromJson(Obj(o), depth).Ok?
    ensures var r := FromJson(Obj(o), depth).value;
            && r.Range? && r.field == field
            && (!("low" in o && o["low"].Number?) ==> r.low == Unbounded)
            && (!("high" in o && o["high"].Number?) ==> r.high == Unbounded)
            && ("low" in o && o["low"].Number? ==>
                  r.low == if "low_inclusive" in o && o["low_inclusive"] == Bool(false)
                           then Excluded(o["low"].x) else Included(o["low"].x))
            && ("high" in o && o["high"].Number? ==>
                  r.high == if "high_inclusive" in o && o["high_inclusive"] == Bool(false)
                            then Excluded(o["high"].x) else Included(o["high"].x))
  {
  }

  /** And the other leaves: a missing value is null, a missing string is an error. */
  lemma {:induction false} LeafMeans(o: map<string, Json>, op: string, depth: nat)
    requires depth < 32 && "op" in o && o["op"] == Str(op) && (op == "eq" || op == "full_text" || op == "range")
    ensures !("field" in o && o["field"].Str?) ==> FromJson(Obj(o), depth) == Err(MissingField)
    ensures "field" in o && o["field"].Str? && op == "eq" ==>
              FromJson(Obj(o), depth) == Ok(Eq(o["field"].s, if "value" in o then o["value"] else Null))
    ensures "field" in o && o["field"].Str? && op == "full_text" ==>
              FromJson(Obj(o), depth)
              == if "query" in o && o["query"].Str? then Ok(FullText(o["field"].s, o["query"].s)) else Err(MissingQuery)
  {
  }

  /** What is no filter at all, and how it is refused. */
  lemma {:induction false} JsonRefuses(v: Json, depth: nat)
    requires depth < 32
    ensures !v.Obj? ==> FromJson(v, depth) == Err(NotAnObject)
    ensures v.Obj? && !("op" in v.fields && v.fields["op"].Str?) ==> FromJson(v, depth) == Err(MissingOp)
    ensures v.Obj? && "op" in v.fields && v.fields["op"].Str? ==>
              var o, op := v.fields, v.fields["op"].s;
              && (op !in {"eq", "range", "full_text", "and", "or", "not"} ==> FromJson(v, depth) == Err(UnknownOp))
              && (op in {"and", "or"} && !("filters" in o && o["filters"].Arr?) ==> FromJson(v, depth) == Err(MissingFilters))
              && (op == "not" && "filter" !in o ==> FromJson(v, depth) == Err(MissingFilter))
  {
  }

  /** And of messages: one without a kind, and a value that does not parse. */
  lemma {:induction false} PbRefuses(field: string, text: string, parse: string -> Option<Json>, depth: nat)
    requires depth < 32
    ensures FromPb(Empty, parse, depth) == Err(EmptyFilter)
    ensures parse(text).None? ==> FromPb(PbEq(field, text), parse, depth) == Err(BadValue)
  {
  }

  lemma {:induction false} LeafReads(f: Filter, open: bool, depth: nat)
    requires depth < MAX_FILTER_DEPTH && (f.Eq? || f.FullText?)
    ensures FromJson(ToJson(f, open), depth) == Ok(f)
  {
    var o := ToJson(f, open).fields;
    assert Get(o, "op") == Some(Str(if f.Eq? then "eq" else "full_text")) && Get(o, "field") == Some(Str(f.field));
  }

  lemma {:induction false} JsonRoundTrip(f: Filter, open: bool, depth: nat)
    ensures FromJson(ToJson(f, open), depth) == if depth + Levels(f) <= MAX_FILTER_DEPTH then Ok(f) else Err(TooDeep)
    decreases f, 0
  {
    hide FromJson, FromJsons;
    if depth < MAX_FILTER_DEPTH {
      match f {
        case Range(field, low, high) => RangeReads(field, low, high, open, depth);
        case And(parts) => {
          ListReads("and", ToJsons(parts, open), depth);
          JsonsRoundTrip(parts, open, depth + 1);
        }
        case Or(parts) => {
          ListReads("or", ToJsons(parts, open), depth);
          JsonsRoundTrip(parts, open, depth + 1);
        }
        case Not(part) => {
          NotReads(ToJson(part, open), depth);
          JsonRoundTrip(part, open, depth + 1);
        }
        case _ => LeafReads(f, open, depth);
      }
    } else {
      TooDeepFails(ToJson(f, open), depth);
    }
  }

  lemma {:induction false} TooDeepFails(v: Json, depth: nat)
    requires depth >= MAX_FILTER_DEPTH
    ensures FromJson(v, depth) == Err(TooDeep)
  {
  }

  lemma {:induction false} ListReads(op: string, items: seq<Json>, depth: nat)
    requires depth < MAX_FILTER_DEPTH && (op == "and" || op == "or")
    ensures FromJson(Obj(map["op" := Str(op), "filters" := Arr(items)]), depth)
            == var all := FromJsons(items, depth + 1);
               if all.Err? then Err(all.error) else Ok(if op == "and" then And(all.value) else Or(all.value))
  {
    var o := map["op" := Str(op), "filters" := Arr(items)];
    assert Get(o, "op") == Some(Str(op)) && o["filters"] == Arr(items);
  }

  lemma {:induction false} NotReads(v: Json, depth: nat)
    requires depth < MAX_FILTER_DEPTH
    ensures FromJson(Obj(map["op" := Str("not"), "filter" := v]), depth)
            == var inner := FromJson(v, depth + 1); if inner.Err? then inner else Ok(Not(inner.value))
  {
    var o := map["op" := Str("not"), "filter" := v];
    assert Get(o, "op") == Some(Str("not")) && o["filter"] == v;
  }

  lemma {:induction false} JsonsRoundTrip(parts: seq<Filter>, open: bool, depth: nat)
    ensures FromJsons(ToJsons(parts, open), depth)
            == if depth + LevelsOf(parts) <= MAX_FILTER_DEPTH || parts == [] then Ok(parts) else Err(TooDeep)
    decreases parts, 1
  {
    if parts != [] {
      JsonRoundTrip(parts[0], open, depth);
      JsonsRoundTrip(parts[1..], open, depth);
      assert [parts[0]] + parts[1..] == parts;
      assert ToJsons(parts, open)[1..] == ToJsons(parts[1..], open);
    }
  }

  // ----- both -----------------------------------------------------------------------------------

  /** The two request forms of one filter are accepted or refused together, with the same tree. */
  lemma {:induction false} FormsAgree(f: Filter, parse: string -> Option<Json>, show: Json -> string, a: bool, b: bool)
    requires Reads(f, parse, show)
    ensures FromJson(ToJson(f, a), 0) == FromPb(ToPb(f, show, b), parse, 0)
    ensures FromJson(ToJson(f, a), 0) == Ok(f) <==> Levels(f) <= 32
  {
    hide FromJson, FromPb, ToJson, ToPb;
    JsonRoundTrip(f, a, 0);
    PbRoundTrip(f, parse, show, b, 0);
  }

  /** No accepted JSON, however written, gives a tree deeper than 32 levels. */
  lemma {:induction false} JsonStaysShallow(v: Json, depth: nat)
    ensures FromJson(v, depth).Ok? ==> depth + Levels(FromJson(v, depth).value) <= MAX_FILTER_DEPTH
    decreases MAX_FILTER_DEPTH - depth, 0, 0
  {
    if FromJson(v, depth).Ok? {
      var op := AsStr(Get(v.fields, "op")).value;
      if op == "and" || op == "or" {
        JsonsStayShallow(v.fields["filters"].items, depth + 1);
      } else if op == "not" {
        JsonStaysShallow(v.fields["filter"], depth + 1);
      }
    }
  }

  lemma {:induction false} JsonsStayShallow(items: seq<Json>, depth: nat)
    ensures FromJsons(items, depth).Ok? ==>
              FromJsons(items, depth).value == [] || depth + LevelsOf(FromJsons(items, depth).value) <= MAX_FILTER_DEPTH
    decreases MAX_FILTER_DEPTH - depth, 1, |items|
  {
    if items != [] && FromJsons(items, depth).Ok? {
      JsonStaysShallow(items[0], depth);
      JsonsStayShallow(items[1..], depth);
      var first, rest := FromJson(items[0], depth).value, FromJsons(items[1..], depth).value;
      assert ([first] + rest)[1..] == rest;
    }
  }

  /** Any accepted JSON means the same as the canonical writing of what it converts to. */
  lemma {:induction false} JsonHasCanonicalForm(v: Json, open: bool)
    ensures FromJson(v, 0).Ok? ==> FromJson(ToJson(FromJson(v, 0).value, open), 0) == FromJson(v, 0)
  {
    hide FromJson, ToJson, Levels;
    JsonStaysShallow(v, 0);
    if FromJson(v, 0).Ok? {
      JsonRoundTrip(FromJson(v, 0).value, open, 0);
    }
  }
}
