/** The JSON-schema subset validator (internal/jsonschema/validator.go), judged
    against a declarative conformance relation. Strings are sequences of bytes,
    as `len` counts them. */
module JsonSchema {
  import opened JsonValue
  import opened Text

  /** A decoded argument. Two numbers of one value may be represented differently
      (`form` is the Go type and its text), and nested equality looks at that. */
  datatype Value =
    | Null
    | Bool(b: bool)
    | Num(n: real, form: string)
    | Str(s: string)
    | Arr(items: seq<Value>)
    | Obj(members: Object)

  type Object = map<string, Value>

  /** A value in a schema, decoded from JSON or written as a Go literal: `Strings`
      is a list typed as strings, and `Other` is any value that no keyword reads. */
  datatype Raw =
    | Nil
    | Flag(b: bool)
    | Number(n: real, form: string)
    | Word(s: string)
    | List(items: seq<Raw>)
    | Table(members: Schema)
    | Strings(names: seq<string>)
    | Other

  type Schema = map<string, Raw>

  /** The regular-expression and time libraries. */
  datatype Library = Library(
    compiles: string -> bool, matches: (string, string) -> bool, isDateTime: string -> bool, isDate: string -> bool)

  datatype Kind = MissingProperty | UnknownProperty | Mismatch

  datatype Error = Error(pointer: string, kind: Kind)

  // ---------------------------------------------------------------------
  // Reading keywords
  // ---------------------------------------------------------------------

  const TWO_63 := 0x8000_0000_0000_0000

  /** `float64(int64(n)) == n`. */
  predicate IsInt64(n: real) {
    -TWO_63 <= n.Floor < TWO_63 && n.Floor as real == n
  }

  /** The number is the 64-bit integer `k`. */
  ghost predicate IsInt(n: real, k: int) {
    -0x8000_0000_0000_0000 <= k < 0x8000_0000_0000_0000 && n == k as real
  }

  lemma IsInt64Exactly(n: real)
    ensures IsInt64(n) <==> exists k :: IsInt(n, k)
    ensures forall k :: IsInt(n, k) ==> n.Floor == k
  {
    if IsInt64(n) {
      assert IsInt(n, n.Floor);
    }
  }

  function ToInt(v: Raw): Option<int> {
    if v.Number? && IsInt64(v.n) then Some(v.n.Floor) else None
  }

  function ToReal(v: Raw): Option<real> {
    if v.Number? then Some(v.n) else None
  }

  function Keyword(schema: Schema, name: string): (v: Raw)
    ensures name in schema ==> v == schema[name]
    ensures name !in schema ==> v == Nil
  {
    if name in schema then schema[name] else Nil
  }

  /** The strings of a list, the empty one left out. */
  ghost function NamesIn(items: seq<Raw>): seq<string> {
    if items == [] then []
    else
      var last := items[|items| - 1];
      NamesIn(items[..|items| - 1]) + if last.Word? && last.s != "" then [last.s] else []
  }

  lemma {:induction false} NamesExactly(items: seq<Raw>, t: string)
    ensures t in NamesIn(items) <==> t != "" && Word(t) in items
  {
    if items != [] {
      NamesExactly(items[..|items| - 1], t);
      assert items == items[..|items| - 1] + [items[|items| - 1]];
    }
  }

  ghost function SchemaTypes(raw: Raw): seq<string> {
    match raw
    case Word(t) => [t]
    case List(items) => NamesIn(items)
    case Strings(names) => names
    case _ => []
  }

  /** A list of strings, or nothing when any item is not a string. */
  ghost function ToStringSlice(v: Raw): Option<seq<string>> {
    match v
    case Strings(names) => Some(names)
    case List(items) =>
      if forall i :: 0 <= i < |items| ==> items[i].Word?
      then Some(seq(|items|, i requires 0 <= i < |items| && items[i].Word? => items[i].s))
      else None
    case _ => None
  }

  /** Names are read from a typed list, or from a decoded one of strings only. */
  lemma StringsExactly(v: Raw, names: seq<string>)
    ensures ToStringSlice(v) == Some(names) <==>
            || v == Strings(names)
            || (v.List? && |v.items| == |names| && forall i :: 0 <= i < |names| ==> v.items[i] == Word(names[i]))
  {
    if v.List? && ToStringSlice(v).Some? && |v.items| == |names| {
      var read := ToStringSlice(v).value;
      assert |read| == |names| && forall i :: 0 <= i < |names| ==> v.items[i] == Word(read[i]);
      if forall i :: 0 <= i < |names| ==> v.items[i] == Word(names[i]) {
        assert forall i :: 0 <= i < |names| ==> Word(read[i]) == Word(names[i]);
        assert read == names;
      }
    }
  }

  ghost function Required(schema: Schema): seq<string> {
    match ToStringSlice(Keyword(schema, "required"))
    case Some(names) => names
    case None => []
  }

  function Properties(schema: Schema): (props: Schema)
    ensures "properties" in schema && schema["properties"].Table? ==> props == schema["properties"].members
    ensures !("properties" in schema && schema["properties"].Table?) ==> props == map[]
  {
    var p := Keyword(schema, "properties");
    if p.Table? then p.members else map[]
  }

  function Anchored(pattern: string): string
    requires pattern != ""
  {
    var p := if pattern[0] != '^' then "^" + pattern else pattern;
    if p[|p| - 1] != '$' then p + "$" else p
  }

  // ---------------------------------------------------------------------
  // Conformance
  // ---------------------------------------------------------------------

  ghost predicate Conforms(lib: Library, schema: Schema, value: Value)
    decreases Table(schema), 2
  {
    && InEnum(schema, value)
    && (var types := SchemaTypes(Keyword(schema, "type"));
        if |types| > 1 then exists t :: t in types && ConformsAs(lib, t, schema, value)
        else ConformsAs(lib, if |types| == 1 then types[0] else "", schema, value))
    && ("anyOf" in schema ==> MatchesAny(lib, schema, value))
  }

  ghost predicate MatchesAny(lib: Library, schema: Schema, value: Value)
    requires "anyOf" in schema
    decreases Table(schema), 1
  {
    var raw := schema["anyOf"];
    raw.List? && exists i :: 0 <= i < |raw.items| && raw.items[i].Table? && Conforms(lib, raw.items[i].members, value)
  }

  ghost predicate ConformsAs(lib: Library, typ: string, schema: Schema, value: Value)
    decreases Table(schema), 1
  {
    match typ
    case "" => value.Obj? ==> MembersConform(lib, schema, value.members)
    case "object" => value.Obj? && MembersConform(lib, schema, value.members)
    case "array" => value.Arr? && LongEnough(schema, |value.items|)
      && (Keyword(schema, "items").Table? ==>
            forall i :: 0 <= i < |value.items| ==> Conforms(lib, Keyword(schema, "items").members, value.items[i]))
    case "string" => value.Str? && StringConforms(lib, schema, value.s)
    case "integer" => value.Num? && (exists k :: IsInt(value.n, k)) && InBounds(schema, value.n)
    case "number" => value.Num? && InBounds(schema, value.n)
    case "boolean" => value.Bool?
    case "null" => value.Null?
    case _ => true
  }

  ghost predicate MembersConform(lib: Library, schema: Schema, obj: Object)
    decreases Table(schema), 0
  {
    && (forall name :: name in Required(schema) ==> name in obj)
    && (Keyword(schema, "additionalProperties") == Flag(false) ==> obj.Keys <= Properties(schema).Keys)
    && (forall name :: name in Properties(schema) && Properties(schema)[name].Table? && name in obj ==>
          Conforms(lib, Properties(schema)[name].members, obj[name]))
  }

  /** The same Go value; a list typed as strings is no decoded array. */
  predicate DeepEqual(option: Raw, value: Value)
    decreases option
  {
    match option
    case Nil => value.Null?
    case Flag(b) => value == Value.Bool(b)
    case Number(n, form) => value == Value.Num(n, form)
    case Word(s) => value == Value.Str(s)
    case List(items) =>
      value.Arr? && |items| == |value.items| && forall i :: 0 <= i < |items| ==> DeepEqual(items[i], value.items[i])
    case Table(members) =>
      value.Obj? && members.Keys == value.members.Keys
      && forall k :: k in members ==> DeepEqual(members[k], value.members[k])
    case Strings(_) => false
    case Other => false
  }

  /** The decoded value that a literal stands for, if any. */
  ghost function AsValue(option: Raw): Option<Value>
    decreases option
  {
    match option
    case Nil => Some(Value.Null)
    case Flag(b) => Some(Value.Bool(b))
    case Number(n, form) => Some(Value.Num(n, form))
    case Word(s) => Some(Value.Str(s))
    case List(items) =>
      if forall i :: 0 <= i < |items| ==> AsValue(items[i]).Some?
      then Some(Value.Arr(seq(|items|,
                              i requires 0 <= i < |items| && AsValue(items[i]).Some? => AsValue(items[i]).value)))
      else None
    case Table(members) =>
      if forall k :: k in members ==> AsValue(members[k]).Some?
      then Some(Value.Obj(map k | k in members :: AsValue(members[k]).value))
      else None
    case Strings(_) => None
    case Other => None
  }

  lemma {:induction false} DeepEqualExactly(option: Raw, value: Value)
    ensures DeepEqual(option, value) <==> AsValue(option) == Some(value)
    decreases option
  {
    match option
    case List(items) =>
      if value.Arr? && |items| == |value.items| {
        forall i | 0 <= i < |items|
          ensures DeepEqual(items[i], value.items[i]) <==> AsValue(items[i]) == Some(value.items[i])
        {
          DeepEqualExactly(items[i], value.items[i]);
        }
        if DeepEqual(option, value) {
          assert AsValue(option).value.items == value.items;
        }
      }
    case Table(members) =>
      if value.Obj? && members.Keys == value.members.Keys {
        forall k | k in members
          ensures DeepEqual(members[k], value.members[k]) <==> AsValue(members[k]) == Some(value.members[k])
        {
          DeepEqualExactly(members[k], value.members[k]);
        }
        if DeepEqual(option, value) {
          assert AsValue(option).value.members == value.members;
        }
      }
    case _ =>
  }

  /** The option denotes the value: two numbers that are equal, however they are
      represented, or otherwise the same Go value. */
  ghost predicate Denotes(option: Raw, value: Value) {
    if option.Number? then value.Num? && value.n == option.n else DeepEqual(option, value)
  }

  ghost predicate InEnum(schema: Schema, value: Value) {
    "enum" in schema ==> Allowed(schema["enum"], value)
  }

  ghost predicate Allowed(enum: Raw, value: Value) {
    match enum
    case List(items) => exists i :: 0 <= i < |items| && Denotes(items[i], value)
    case Strings(names) => value.Str? && value.s in names
    case _ => true
  }

  /** The keyword is the integer `k`; other values of it are ignored. */
  ghost predicate Says(schema: Schema, name: string, k: int) {
    name in schema && schema[name].Number? && IsInt(schema[name].n, k)
  }

  lemma SaysExactly(schema: Schema, name: string)
    ensures forall k :: Says(schema, name, k) <==> ToInt(Keyword(schema, name)) == Some(k)
  {
    if name in schema && schema[name].Number? {
      IsInt64Exactly(schema[name].n);
    }
  }

  ghost predicate LongEnough(schema: Schema, length: nat) {
    forall k :: Says(schema, "minItems", k) ==> length >= k
  }

  lemma LongEnoughExactly(schema: Schema, length: nat)
    ensures var least := ToInt(Keyword(schema, "minItems"));
            LongEnough(schema, length) <==> least.None? || length >= least.value
  {
    SaysExactly(schema, "minItems");
    hide Says;
    hide ToInt;
  }

  ghost predicate InBounds(schema: Schema, n: real) {
    && ("minimum" in schema && schema["minimum"].Number? ==> schema["minimum"].n <= n)
    && ("maximum" in schema && schema["maximum"].Number? ==> n <= schema["maximum"].n)
  }

  ghost predicate StringConforms(lib: Library, schema: Schema, s: string) {
    && (forall k :: Says(schema, "minLength", k) ==> |s| >= k)
    && (forall k :: Says(schema, "maxLength", k) ==> |s| <= k)
    && ("pattern" in schema && schema["pattern"].Word? && schema["pattern"].s != "" ==>
          var whole := WholeText(schema["pattern"].s);
          lib.compiles(whole) && lib.matches(whole, s))
    && (var f := Keyword(schema, "format");
        f.Word? ==>
          && (f.s == "date-time" ==> lib.isDateTime(s))
          && (f.s == "date" ==> lib.isDate(s))
          && (f.s == "email" ==> SimpleEmail(s)))
  }

  /** The pattern with an anchor at each end that lacks one. */
  ghost function WholeText(pattern: string): (whole: string)
    requires pattern != ""
    ensures |whole| >= 2 && whole[0] == '^' && whole[|whole| - 1] == '$'
  {
    (if pattern[0] == '^' then "" else "^") + pattern + (if pattern[|pattern| - 1] == '$' then "" else "$")
  }

  lemma AnchoredExactly(pattern: string)
    requires pattern != ""
    ensures Anchored(pattern) == WholeText(pattern)
  {
  }

  /** Exactly one `@`, something before it, and a dot somewhere after it. */
  ghost predicate SimpleEmail(s: string) {
    exists i ::
      && 0 < i < |s| && s[i] == '@'
      && (forall k :: 0 <= k < |s| && s[k] == '@' ==> k == i)
      && (exists k :: i < k < |s| && s[k] == '.')
  }

  /** The parts: a name and a domain with a dot, and one at sign between. */
  ghost predicate IsAddress(s: string, name: string, domain: string) {
    s == name + ['@'] + domain && name != [] && '@' !in name && '@' !in domain && '.' in domain
  }

  lemma EmailExactly(s: string)
    ensures SimpleEmail(s) <==> exists name, domain :: IsAddress(s, name, domain)
  {
    if SimpleEmail(s) {
      var i :| 0 < i < |s| && s[i] == '@' && (forall k :: 0 <= k < |s| && s[k] == '@' ==> k == i)
               && exists k :: i < k < |s| && s[k] == '.';
      SplitAt(s, i);
    }
    if name, domain :| IsAddress(s, name, domain) {
      JoinParts(s, name, domain);
    }
  }

  lemma SplitAt(s: string, i: nat)
    requires 0 < i < |s| && s[i] == '@' && forall k :: 0 <= k < |s| && s[k] == '@' ==> k == i
    requires exists k :: i < k < |s| && s[k] == '.'
    ensures IsAddress(s, s[..i], s[i + 1..])
  {
    assert s == s[..i] + ['@'] + s[i + 1..];
    var k :| i < k < |s| && s[k] == '.';
    assert s[i + 1..][k - i - 1] == '.';
  }

  lemma JoinParts(s: string, name: string, domain: string)
    requires IsAddress(s, name, domain)
    ensures SimpleEmail(s)
  {
    var i := |name|;
    assert s[i] == '@';
    assert forall k :: 0 <= k < i ==> s[k] == name[k];
    assert forall k :: i < k < |s| ==> s[k] == domain[k - i - 1];
    var k :| 0 <= k < |domain| && domain[k] == '.';
    assert s[i + 1 + k] == '.';
  }

  // ---------------------------------------------------------------------
  // Where an error points
  // ---------------------------------------------------------------------

  /** One reference token, per section 4 of RFC 6901. */
  ghost function Descend(v: Value, token: string): Option<Value> {
    match v
    case Obj(m) => Get(m, token)
    case Arr(items) =>
      var i := ParseNat(token);
      if i.Some? && i.value < |items| then Some(items[i.value]) else None
    case _ => None
  }

  /** The tokens lead to a value. */
  ghost predicate Present(v: Value, tokens: seq<string>)
    decreases tokens
  {
    tokens == [] || (Descend(v, tokens[0]).Some? && Present(Descend(v, tokens[0]).value, tokens[1..]))
  }

  /** The tokens lead to an object and end in a name it lacks. */
  ghost predicate AbsentMember(v: Value, tokens: seq<string>)
    decreases tokens
  {
    tokens != [] &&
    if |tokens| == 1 then v.Obj? && tokens[0] !in v.members
    else Descend(v, tokens[0]).Some? && AbsentMember(Descend(v, tokens[0]).value, tokens[1..])
  }

  ghost predicate Names(kind: Kind, v: Value, tokens: seq<string>) {
    if kind.MissingProperty? then AbsentMember(v, tokens) else Present(v, tokens)
  }

  /** `tokens` are what the error's pointer adds to `ptr`. */
  ghost predicate PointsInto(r: Option<Error>, ptr: string, v: Value, tokens: seq<string>) {
    r.Some? ==> r.value.pointer == ptr + Pointer(tokens) && Names(r.value.kind, v, tokens)
  }

  /** The error belongs there: the tokens lead to the place at which a keyword of the
      schema that governs that place is violated. */
  ghost predicate Blames(lib: Library, schema: Schema, value: Value, kind: Kind, tokens: seq<string>)
    decreases Table(schema), 2
  {
    var types := SchemaTypes(Keyword(schema, "type"));
    || (tokens == [] && kind.Mismatch? &&
          (!InEnum(schema, value)
           || (|types| > 1 && forall t :: t in types ==> !ConformsAs(lib, t, schema, value))
           || ("anyOf" in schema && !MatchesAny(lib, schema, value))))
    || (|types| <= 1 && BlamesAs(lib, if |types| == 1 then types[0] else "", schema, value, kind, tokens))
  }

  ghost predicate BlamesAs(lib: Library, typ: string, schema: Schema, value: Value, kind: Kind, tokens: seq<string>)
    decreases Table(schema), 1
  {
    if (typ == "" || typ == "object") && value.Obj? then BlamesMember(lib, schema, value.members, kind, tokens)
    else if typ == "array" && value.Arr? then
      || (tokens == [] && kind.Mismatch? && !LongEnough(schema, |value.items|))
      || BlamesItem(lib, schema, value.items, kind, tokens)
    else tokens == [] && kind.Mismatch? && !ConformsAs(lib, typ, schema, value)
  }

  ghost predicate BlamesMember(lib: Library, schema: Schema, obj: Object, kind: Kind, tokens: seq<string>)
    decreases Table(schema), 0
  {
    tokens != [] &&
    var name := tokens[0];
    || (|tokens| == 1 && kind.MissingProperty? && name in Required(schema) && name !in obj)
    || (|tokens| == 1 && kind.UnknownProperty? && Keyword(schema, "additionalProperties") == Flag(false)
        && name in obj && name !in Properties(schema))
    || (name in Properties(schema) && Properties(schema)[name].Table? && name in obj
        && Blames(lib, Properties(schema)[name].members, obj[name], kind, tokens[1..]))
  }

  ghost predicate BlamesItem(lib: Library, schema: Schema, items: seq<Value>, kind: Kind, tokens: seq<string>)
    decreases Table(schema), 0
  {
    && tokens != [] && Keyword(schema, "items").Table?
    && ParseNat(tokens[0]).Some? && ParseNat(tokens[0]).value < |items|
    && Blames(lib, Keyword(schema, "items").members, items[ParseNat(tokens[0]).value], kind, tokens[1..])
  }

  ghost predicate Blamed(lib: Library, schema: Schema, value: Value, r: Option<Error>, tokens: seq<string>) {
    r.Some? ==> Blames(lib, schema, value, r.value.kind, tokens)
  }

  lemma MemberBlamed(lib: Library, schema: Schema, obj: Object, kind: Kind, name: string, tokens: seq<string>)
    requires name in Properties(schema) && Properties(schema)[name].Table? && name in obj
    requires Blames(lib, Properties(schema)[name].members, obj[name], kind, tokens)
    ensures BlamesMember(lib, schema, obj, kind, [name] + tokens)
  {
    assert ([name] + tokens)[1..] == tokens;
    hide Blames;
  }

  lemma ItemBlamed(lib: Library, schema: Schema, items: seq<Value>, kind: Kind, i: nat, tokens: seq<string>)
    requires Keyword(schema, "items").Table? && i < |items|
    requires Blames(lib, Keyword(schema, "items").members, items[i], kind, tokens)
    ensures BlamesItem(lib, schema, items, kind, [Decimal(i)] + tokens)
  {
    DecimalRoundTrip(i);
    assert ([Decimal(i)] + tokens)[1..] == tokens;
    hide Blames;
  }

  /** What is blamed is at fault: the value does not conform. */
  lemma {:induction false} BlameIsDeserved(lib: Library, schema: Schema, value: Value, kind: Kind, tokens: seq<string>)
    requires Blames(lib, schema, value, kind, tokens)
    ensures !Conforms(lib, schema, value)
    decreases Table(schema), 2
  {
    var types := SchemaTypes(Keyword(schema, "type"));
    var typ := if |types| == 1 then types[0] else "";
    hide BlamesAs;
    hide ConformsAs;
    if |types| <= 1 && BlamesAs(lib, typ, schema, value, kind, tokens) {
      TypeBlameIsDeserved(lib, typ, schema, value, kind, tokens);
    }
  }

  lemma {:induction false} TypeBlameIsDeserved(
      lib: Library, typ: string, schema: Schema, value: Value, kind: Kind, tokens: seq<string>)
    requires BlamesAs(lib, typ, schema, value, kind, tokens)
    ensures !ConformsAs(lib, typ, schema, value)
    decreases Table(schema), 1
  {
    hide BlamesMember;
    hide MembersConform;
    hide Conforms;
    hide Blames;
    if (typ == "" || typ == "object") && value.Obj? {
      MemberBlameIsDeserved(lib, schema, value.members, kind, tokens);
    } else if typ == "array" && value.Arr? && BlamesItem(lib, schema, value.items, kind, tokens) {
      var items, i := Keyword(schema, "items"), ParseNat(tokens[0]).value;
      assert items < Table(schema);
      BlameIsDeserved(lib, items.members, value.items[i], kind, tokens[1..]);
    }
  }

  lemma {:induction false} MemberBlameIsDeserved(
      lib: Library, schema: Schema, obj: Object, kind: Kind, tokens: seq<string>)
    requires BlamesMember(lib, schema, obj, kind, tokens)
    ensures !MembersConform(lib, schema, obj)
    decreases Table(schema), 0
  {
    hide Blames;
    hide Conforms;
    var name, props := tokens[0], Properties(schema);
    if name in props && props[name].Table? && name in obj
       && Blames(lib, props[name].members, obj[name], kind, tokens[1..]) {
      assert props[name] < Table(props) == schema["properties"] < Table(schema);
      BlameIsDeserved(lib, props[name].members, obj[name], kind, tokens[1..]);
    }
  }

  lemma {:induction false} PointerOfChild(ptr: string, token: string, tokens: seq<string>)
    ensures (ptr + "/" + Escape(token)) + Pointer(tokens) == ptr + Pointer([token] + tokens)
  {
    assert ([token] + tokens)[1..] == tokens;
  }

  /** An error below a child is an error below its parent. */
  lemma {:induction false} FromChild(r: Option<Error>, ptr: string, v: Value, token: string, tokens: seq<string>)
    requires Descend(v, token).Some?
    requires PointsInto(r, ptr + "/" + Escape(token), Descend(v, token).value, tokens)
    ensures PointsInto(r, ptr, v, [token] + tokens)
  {
    PointerOfChild(ptr, token, tokens);
    assert ([token] + tokens)[1..] == tokens;
  }

  lemma {:induction false} AtName(ptr: string, token: string)
    ensures ptr + "/" + Escape(token) == ptr + Pointer([token])
  {
    PointerOfChild(ptr, token, []);
    assert [token] + [] == [token];
    assert Pointer([]) == "";
  }

  // ---------------------------------------------------------------------
  // The code
  // ---------------------------------------------------------------------

  method ReadTypes(raw: Raw) returns (types: seq<string>)
    ensures types == SchemaTypes(raw)
  {
    match raw {
      case Word(t) => return [t];
      case List(items) =>
        types := [];
        for i := 0 to |items|
          invariant types == NamesIn(items[..i])
        {
          if items[i].Word? && items[i].s != "" {
            types := types + [items[i].s];
          }
          assert items[..i + 1][..i] == items[..i];
        }
        assert items[..|items|] == items;
      case Strings(names) => return names;
      case _ => return [];
    }
  }

  method ReadStrings(v: Raw) returns (r: Option<seq<string>>)
    ensures r == ToStringSlice(v)
  {
    match v {
      case Strings(names) => return Some(names);
      case List(items) =>
        var out: seq<string> := [];
        for i := 0 to |items|
          invariant |out| == i && forall j :: 0 <= j < i ==> items[j] == Word(out[j])
        {
          if !items[i].Word? {
            return None;
          }
          out := out + [items[i].s];
        }
        assert ToStringSlice(v).Some? && ToStringSlice(v).value == out;
        return Some(out);
      case _ => return None;
    }
  }

  method EscapePtr(s: string) returns (out: string)
    ensures out == Escape(s)
  {
    var needsEscaping := false;
    for i := 0 to |s|
      invariant !needsEscaping
      invariant forall j :: 0 <= j < i ==> s[j] != '~' && s[j] != '/'
    {
      if s[i] == '~' || s[i] == '/' {
        needsEscaping := true;
        break;
      }
    }
    if !needsEscaping {
      EscapeKeepsPlain(s);
      return s;
    }
    out := "";
    for i := 0 to |s|
      invariant out == Escape(s[..i])
    {
      EscapeConcat(s[..i], s[i]);
      assert s[..i + 1] == s[..i] + [s[i]];
      match s[i] {
        case '~' => out := out + "~0";
        case '/' => out := out + "~1";
        case c => out := out + [c];
      }
    }
    assert s[..|s|] == s;
  }

  method JoinPtr(prefix: string, name: string) returns (ptr: string)
    ensures ptr == prefix + "/" + Escape(name)
  {
    var escaped := EscapePtr(name);
    ptr := prefix + "/" + escaped;
  }

  method Validate(lib: Library, schema: Option<Schema>, value: Value) returns (r: Option<Error>)
    ensures r == None <==> (schema.Some? ==> Conforms(lib, schema.value, value))
    ensures r.Some? ==> ParsePointer(r.value.pointer).Some?
                        && Names(r.value.kind, value, ParsePointer(r.value.pointer).value)
    ensures r.Some? ==> schema.Some?
                        && Blames(lib, schema.value, value, r.value.kind, ParsePointer(r.value.pointer).value)
  {
    hide Blames;
    hide Conforms;
    if schema == None {
      return None;
    }
    ghost var tokens;
    r, tokens := ValidateAt(lib, schema.value, value, "");
    assert "" + Pointer(tokens) == Pointer(tokens);
    PointerRoundTrip(tokens);
  }

  method ValidateAt(lib: Library, schema: Schema, value: Value, ptr: string)
      returns (r: Option<Error>, ghost tokens: seq<string>)
    ensures r == None <==> Conforms(lib, schema, value)
    ensures PointsInto(r, ptr, value, tokens)
    ensures Blamed(lib, schema, value, r, tokens)
    decreases Table(schema), 5
  {
    hide ConformsAs;
    hide BlamesAs;
    hide MatchesAny;
    hide SchemaTypes;
    tokens := [];
    if "enum" in schema {
      var allowed := CheckEnum(schema["enum"], value);
      if !allowed {
        return Some(Error(ptr, Mismatch)), [];
      }
    }
    var types := ReadTypes(Keyword(schema, "type"));
    if |types| > 1 {
      for i := 0 to |types|
        invariant forall j :: 0 <= j < i ==> !ConformsAs(lib, types[j], schema, value)
      {
        r, tokens := ValidateType(lib, types[i], schema, value, ptr);
        if r == None {
          assert types[i] in types;
          if "anyOf" in schema {
            r := CheckAnyOf(lib, schema, value, ptr);
          }
          return r, [];
        }
      }
      return Some(Error(ptr, Mismatch)), [];
    }
    var typ := "";
    if |types| == 1 {
      typ := types[0];
    }
    r, tokens := ValidateType(lib, typ, schema, value, ptr);
    if r.Some? {
      return;
    }
    if "anyOf" in schema {
      r := CheckAnyOf(lib, schema, value, ptr);
      tokens := [];
    }
  }

  method ValidateType(lib: Library, typ: string, schema: Schema, value: Value, ptr: string)
      returns (r: Option<Error>, ghost tokens: seq<string>)
    ensures r == None <==> ConformsAs(lib, typ, schema, value)
    ensures PointsInto(r, ptr, value, tokens)
    ensures r.Some? ==> BlamesAs(lib, typ, schema, value, r.value.kind, tokens)
    decreases Table(schema), 4
  {
    r, tokens := None, [];
    var wrong := Some(Error(ptr, Mismatch));
    if value.Num? {
      IsInt64Exactly(value.n);
    }
    hide IsInt64;
    hide BlamesMember;
    hide BlamesItem;
    hide MembersConform;
    match typ {
      case "" =>
        if ("required" in schema || "properties" in schema || "additionalProperties" in schema) && value.Obj? {
          r, tokens := ValidateObjectMembers(lib, schema, value.members, ptr);
        }
      case "object" =>
        if !value.Obj? {
          return wrong, [];
        }
        r, tokens := ValidateObjectMembers(lib, schema, value.members, ptr);
      case "array" =>
        if !value.Arr? {
          return wrong, [];
        }
        r, tokens := ValidateArray(lib, schema, value.items, ptr);
      case "string" =>
        if !value.Str? {
          return wrong, [];
        }
        var fine := CheckString(lib, schema, value.s);
        if !fine {
          r := wrong;
        }
      case "integer" =>
        if !value.Num? || !IsInt64(value.n) {
          return wrong, [];
        }
        var fine := CheckNumericBounds(schema, value.n);
        if !fine {
          r := wrong;
        }
      case "number" =>
        if !value.Num? {
          return wrong, [];
        }
        var fine := CheckNumericBounds(schema, value.n);
        if !fine {
          r := wrong;
        }
      case "boolean" =>
        if !value.Bool? {
          r := wrong;
        }
      case "null" =>
        if value != Value.Null {
          r := wrong;
        }
      case _ =>
    }
  }

  /** The member and property loops follow whatever order the maps yield. */
  method ValidateObjectMembers(lib: Library, schema: Schema, obj: Object, ptr: string)
      returns (r: Option<Error>, ghost tokens: seq<string>)
    ensures r == None <==> MembersConform(lib, schema, obj)
    ensures PointsInto(r, ptr, Value.Obj(obj), tokens)
    ensures r.Some? ==> BlamesMember(lib, schema, obj, r.value.kind, tokens)
    decreases Table(schema), 3
  {
    hide Conforms;
    hide ConformsAs;
    hide Blames;
    var required := ReadStrings(Keyword(schema, "required"));
    var names := if required.Some? then required.value else [];
    for i := 0 to |names|
      invariant forall j :: 0 <= j < i ==> names[j] in obj
    {
      if names[i] !in obj {
        assert names[i] in names;
        var at := JoinPtr(ptr, names[i]);
        AtName(ptr, names[i]);
        return Some(Error(at, MissingProperty)), [names[i]];
      }
    }
    var props := Properties(schema);
    if Keyword(schema, "additionalProperties") == Flag(false) {
      var rest := obj.Keys;
      while rest != {}
        invariant rest <= obj.Keys
        invariant obj.Keys - rest <= props.Keys
        decreases rest
      {
        var k :| k in rest;
        rest := rest - {k};
        if k !in props {
          assert k in obj;
          var at := JoinPtr(ptr, k);
          AtName(ptr, k);
          assert Present(Value.Obj(obj), [k]);
          return Some(Error(at, UnknownProperty)), [k];
        }
      }
    }
    var rest := props.Keys;
    while rest != {}
      invariant rest <= props.Keys
      invariant forall n :: n in props.Keys - rest && props[n].Table? && n in obj ==>
                  Conforms(lib, props[n].members, obj[n])
      decreases rest
    {
      var name :| name in rest;
      rest := rest - {name};
      if props[name].Table? && name in obj {
        var at := JoinPtr(ptr, name);
        assert props[name] < Table(props) == schema["properties"] < Table(schema);
        r, tokens := ValidateAt(lib, props[name].members, obj[name], at);
        if r.Some? {
          FromChild(r, ptr, Value.Obj(obj), name, tokens);
          MemberBlamed(lib, schema, obj, r.value.kind, name, tokens);
          return r, [name] + tokens;
        }
      }
    }
    return None, [];
  }

  method ValidateArray(lib: Library, schema: Schema, arr: seq<Value>, ptr: string)
      returns (r: Option<Error>, ghost tokens: seq<string>)
    ensures r == None <==> ConformsAs(lib, "array", schema, Value.Arr(arr))
    ensures PointsInto(r, ptr, Value.Arr(arr), tokens)
    ensures r.Some? ==> BlamesAs(lib, "array", schema, Value.Arr(arr), r.value.kind, tokens)
    decreases Table(schema), 3
  {
    var least := ToInt(Keyword(schema, "minItems"));
    LongEnoughExactly(schema, |arr|);
    hide LongEnough;
    hide ToInt;
    hide Conforms;
    hide Blames;
    hide BlamesItem;
    if least.Some? && |arr| < least.value {
      return Some(Error(ptr, Mismatch)), [];
    }
    var items := Keyword(schema, "items");
    if !items.Table? {
      return None, [];
    }
    for i := 0 to |arr|
      invariant forall j :: 0 <= j < i ==> Conforms(lib, items.members, arr[j])
    {
      r, tokens := ValidateAt(lib, items.members, arr[i], ptr + "/" + Decimal(i));
      if r.Some? {
        DecimalRoundTrip(i);
        DecimalIsPlain(i);
        EscapeKeepsPlain(Decimal(i));
        FromChild(r, ptr, Value.Arr(arr), Decimal(i), tokens);
        ItemBlamed(lib, schema, arr, r.value.kind, i, tokens);
        return r, [Decimal(i)] + tokens;
      }
    }
    return None, [];
  }

  method CheckAnyOf(lib: Library, schema: Schema, value: Value, ptr: string) returns (r: Option<Error>)
    requires "anyOf" in schema
    ensures r == None <==> MatchesAny(lib, schema, value)
    ensures r.Some? ==> r.value == Error(ptr, Mismatch)
    decreases Table(schema), 3
  {
    var raw := schema["anyOf"];
    if !raw.List? || |raw.items| == 0 {
      return Some(Error(ptr, Mismatch));
    }
    for i := 0 to |raw.items|
      invariant forall j :: 0 <= j < i && raw.items[j].Table? ==> !Conforms(lib, raw.items[j].members, value)
    {
      if raw.items[i].Table? {
        ghost var inner;
        r, inner := ValidateAt(lib, raw.items[i].members, value, ptr);
        if r == None {
          return None;
        }
      }
    }
    return Some(Error(ptr, Mismatch));
  }

  method CheckEnum(enum: Raw, value: Value) returns (allowed: bool)
    ensures allowed <==> Allowed(enum, value)
  {
    if !enum.List? {
      var names := ReadStrings(enum);
      if names.Some? {
        for i := 0 to |names.value|
          invariant forall j :: 0 <= j < i ==> Value.Str(names.value[j]) != value
        {
          if Value.Str(names.value[i]) == value {
            return true;
          }
        }
        return false;
      }
      return true;
    }
    for i := 0 to |enum.items|
      invariant forall j :: 0 <= j < i ==> !Denotes(enum.items[j], value)
    {
      if EnumEqual(enum.items[i], value) {
        return true;
      }
    }
    return false;
  }

  predicate EnumEqual(a: Raw, b: Value) {
    if ToReal(a).Some? then b.Num? && ToReal(a).value == b.n else DeepEqual(a, b)
  }

  method CheckNumericBounds(schema: Schema, n: real) returns (fine: bool)
    ensures fine <==> InBounds(schema, n)
  {
    var least, most := ToReal(Keyword(schema, "minimum")), ToReal(Keyword(schema, "maximum"));
    if least.Some? && n < least.value {
      return false;
    }
    if most.Some? && n > most.value {
      return false;
    }
    return true;
  }

  method CheckString(lib: Library, schema: Schema, s: string) returns (fine: bool)
    ensures fine <==> StringConforms(lib, schema, s)
  {
    var least, most := ToInt(Keyword(schema, "minLength")), ToInt(Keyword(schema, "maxLength"));
    SaysExactly(schema, "minLength");
    SaysExactly(schema, "maxLength");
    if least.Some? && |s| < least.value {
      return false;
    }
    if most.Some? && |s| > most.value {
      return false;
    }
    var pattern := Keyword(schema, "pattern");
    if pattern.Word? && pattern.s != "" {
      var src := Anchored(pattern.s);
      AnchoredExactly(pattern.s);
      if !lib.compiles(src) {
        return false;
      }
      if !lib.matches(src, s) {
        return false;
      }
    }
    var format := Keyword(schema, "format");
    fine := true;
    if format.Word? && format.s != "" {
      match format.s {
        case "date-time" => fine := lib.isDateTime(s);
        case "date" => fine := lib.isDate(s);
        case "email" => fine := IsSimpleEmail(s);
        case _ =>
      }
    }
  }

  /** Cuts at the first `@`. */
  method IsSimpleEmail(s: string) returns (ok: bool)
    ensures ok <==> SimpleEmail(s)
  {
    var i := 0;
    while i < |s| && s[i] != '@'
      invariant i <= |s| && forall k :: 0 <= k < i ==> s[k] != '@'
    {
      i := i + 1;
    }
    if i == |s| {
      return false;
    }
    var domain := s[i + 1..];
    if i == 0 || domain == "" || '@' in domain {
      return false;
    }
    ok := '.' in domain;
    assert forall k :: i < k < |s| ==> s[k] == domain[k - i - 1];
  }

  // ---------------------------------------------------------------------
  // Schemas with one keyword
  // ---------------------------------------------------------------------

  ghost predicate IsOfType(value: Value, t: string) {
    match t
    case "object" => value.Obj?
    case "array" => value.Arr?
    case "string" => value.Str?
    case "integer" => value.Num? && exists k :: IsInt(value.n, k)
    case "number" => value.Num?
    case "boolean" => value.Bool?
    case "null" => value.Null?
    case _ => true
  }

  lemma OnlyKeyword(schema: Schema, name: string)
    requires schema.Keys == {name}
    requires name in {"type", "enum", "required", "properties", "additionalProperties", "anyOf"}
    ensures name != "type" ==> "type" !in schema
    ensures name != "enum" ==> "enum" !in schema
    ensures name != "required" ==> "required" !in schema
    ensures name != "properties" ==> "properties" !in schema
    ensures name != "anyOf" ==> "anyOf" !in schema
    ensures name != "additionalProperties" ==> "additionalProperties" !in schema
    ensures "items" !in schema
    ensures "minItems" !in schema && "minLength" !in schema && "maxLength" !in schema
    ensures "pattern" !in schema && "format" !in schema && "minimum" !in schema && "maximum" !in schema
  {
    assert "type"[0] != "enum"[0] && "required"[0] != "minItems"[0] && "anyOf"[0] != "items"[0];
    assert |"anyOf"| == 5 == |"items"| && |"additionalProperties"| == 20 && |"minLength"| == 9 == |"maxLength"|;
    assert |"pattern"| == 7 == |"minimum"| == |"maximum"| && |"format"| == 6;
  }

  /** A schema that only names a type accepts exactly the values of that type. */
  lemma {:induction false} TypeAlone(lib: Library, t: string, schema: Schema, value: Value)
    requires schema.Keys == {"type"} && schema["type"] == Word(t)
    ensures Conforms(lib, schema, value) <==> IsOfType(value, t)
  {
    OnlyKeyword(schema, "type");
    assert SchemaTypes(Keyword(schema, "type")) == [t];
    assert Required(schema) == [] && Properties(schema) == map[];
    assert value.Obj? ==> MembersConform(lib, schema, value.members);
    assert ConformsAs(lib, t, schema, value) <==> IsOfType(value, t);
  }

  /** A schema that names several types accepts the values of any of them. */
  lemma {:induction false} UnionAlone(lib: Library, names: seq<string>, schema: Schema, value: Value)
    requires schema.Keys == {"type"} && schema["type"] == Strings(names) && |names| > 1
    ensures Conforms(lib, schema, value) <==> exists t :: t in names && IsOfType(value, t)
  {
    OnlyKeyword(schema, "type");
    assert SchemaTypes(Keyword(schema, "type")) == names;
    assert Required(schema) == [] && Properties(schema) == map[];
    assert value.Obj? ==> MembersConform(lib, schema, value.members);
    assert forall t :: t in names ==> (ConformsAs(lib, t, schema, value) <==> IsOfType(value, t));
    assert Conforms(lib, schema, value) <==> exists t :: t in names && ConformsAs(lib, t, schema, value);
    hide Conforms;
    hide ConformsAs;
    hide IsOfType;
  }

  /** Options typed as strings accept these strings, and options of any other form
      accept everything. */
  lemma {:induction false} OtherEnumAlone(lib: Library, options: Raw, schema: Schema, value: Value)
    requires schema.Keys == {"enum"} && schema["enum"] == options && !options.List?
    ensures Conforms(lib, schema, value) <==> (options.Strings? ==> value.Str? && value.s in options.names)
  {
    OnlyKeyword(schema, "enum");
    assert SchemaTypes(Keyword(schema, "type")) == [];
    assert Required(schema) == [] && Properties(schema) == map[];
    assert value.Obj? ==> MembersConform(lib, schema, value.members);
    assert ConformsAs(lib, "", schema, value);
  }

  /** A schema that only lists options accepts exactly what they denote. */
  lemma {:induction false} EnumAlone(lib: Library, options: seq<Raw>, schema: Schema, value: Value)
    requires schema.Keys == {"enum"} && schema["enum"] == List(options)
    ensures Conforms(lib, schema, value) <==>
            exists i :: 0 <= i < |options| &&
              (if options[i].Number? then value.Num? && value.n == options[i].n else AsValue(options[i]) == Some(value))
  {
    OnlyKeyword(schema, "enum");
    assert SchemaTypes(Keyword(schema, "type")) == [];
    assert Required(schema) == [] && Properties(schema) == map[];
    assert value.Obj? ==> MembersConform(lib, schema, value.members);
    assert ConformsAs(lib, "", schema, value);
    assert Conforms(lib, schema, value) <==> Allowed(schema["enum"], value);
    hide Conforms;
    forall i | 0 <= i < |options|
      ensures DeepEqual(options[i], value) <==> AsValue(options[i]) == Some(value)
    {
      DeepEqualExactly(options[i], value);
    }
    hide DeepEqual;
    hide AsValue;
  }

  /** A schema that only requires names binds objects, and only them. */
  lemma {:induction false} RequiredAlone(lib: Library, names: seq<string>, schema: Schema, value: Value)
    requires schema.Keys == {"required"} && schema["required"] == Strings(names)
    ensures Conforms(lib, schema, value) <==> (value.Obj? ==> forall n :: n in names ==> n in value.members)
  {
    OnlyKeyword(schema, "required");
    assert SchemaTypes(Keyword(schema, "type")) == [];
    assert Required(schema) == names && Properties(schema) == map[];
    assert Conforms(lib, schema, value) <==> ConformsAs(lib, "", schema, value);
    assert value.Obj? ==> (ConformsAs(lib, "", schema, value) <==> MembersConform(lib, schema, value.members));
    assert !value.Obj? ==> ConformsAs(lib, "", schema, value);
    hide Conforms;
    hide ConformsAs;
  }

  /** A schema that only describes members binds those that are there. */
  lemma {:induction false} PropertiesAlone(lib: Library, props: Schema, schema: Schema, value: Value)
    requires schema.Keys == {"properties"} && schema["properties"] == Table(props)
    ensures Conforms(lib, schema, value) <==>
            (value.Obj? ==> forall n :: n in props && props[n].Table? && n in value.members ==>
               Conforms(lib, props[n].members, value.members[n]))
  {
    OnlyKeyword(schema, "properties");
    assert SchemaTypes(Keyword(schema, "type")) == [];
    assert Required(schema) == [] && Properties(schema) == props;
    assert Conforms(lib, schema, value) <==> ConformsAs(lib, "", schema, value);
    assert value.Obj? ==> (ConformsAs(lib, "", schema, value) <==> MembersConform(lib, schema, value.members));
    assert !value.Obj? ==> ConformsAs(lib, "", schema, value);
    hide Conforms;
    hide ConformsAs;
  }

  /** A schema that is only closed accepts no object with a member. */
  lemma {:induction false} ClosedAlone(lib: Library, schema: Schema, value: Value)
    requires schema.Keys == {"additionalProperties"} && schema["additionalProperties"] == Flag(false)
    ensures Conforms(lib, schema, value) <==> (value.Obj? ==> value.members == map[])
  {
    OnlyKeyword(schema, "additionalProperties");
    assert SchemaTypes(Keyword(schema, "type")) == [];
    assert Required(schema) == [] && Properties(schema) == map[];
    assert Conforms(lib, schema, value) <==> ConformsAs(lib, "", schema, value);
    assert value.Obj? ==> (ConformsAs(lib, "", schema, value) <==> MembersConform(lib, schema, value.members));
    assert !value.Obj? ==> ConformsAs(lib, "", schema, value);
    hide Conforms;
    hide ConformsAs;
    if value.Obj? {
      assert value.members.Keys <= Properties(schema).Keys <==> value.members == map[];
    }
  }

  /** A schema of alternatives accepts what one of them does, and nothing if they are
      no list. */
  lemma {:induction false} AnyOfAlone(lib: Library, options: seq<Raw>, schema: Schema, value: Value)
    requires schema.Keys == {"anyOf"} && (schema["anyOf"].List? ==> options == schema["anyOf"].items)
    ensures Conforms(lib, schema, value) <==>
            schema["anyOf"].List? &&
            exists i :: 0 <= i < |options| && options[i].Table? && Conforms(lib, options[i].members, value)
  {
    OnlyKeyword(schema, "anyOf");
    assert SchemaTypes(Keyword(schema, "type")) == [];
    assert Required(schema) == [] && Properties(schema) == map[];
    assert value.Obj? ==> MembersConform(lib, schema, value.members);
    assert ConformsAs(lib, "", schema, value);
    assert Conforms(lib, schema, value) <==> MatchesAny(lib, schema, value);
    hide Conforms;
  }

  lemma NoOptions(schema: Schema)
    requires schema.Keys <= {"type", "minimum", "maximum", "items", "minItems", "minLength", "maxLength", "pattern"}
    ensures "enum" !in schema && "anyOf" !in schema && "format" !in schema
  {
    assert "type"[0] != "enum"[0] && "items"[0] != "anyOf"[0];
    assert |"anyOf"| == 5 && |"format"| == 6 && |"minItems"| == 8;
    assert |"minLength"| == 9 == |"maxLength"| && |"pattern"| == 7 == |"minimum"| == |"maximum"|;
  }

  /** Both bounds belong to the range. */
  lemma {:induction false} BoundedNumber(lib: Library, schema: Schema, low: Raw, high: Raw, value: Value)
    requires schema.Keys == {"type", "minimum", "maximum"} && schema["type"] == Word("number")
    requires schema["minimum"] == low && low.Number? && schema["maximum"] == high && high.Number?
    ensures Conforms(lib, schema, value) <==> value.Num? && low.n <= value.n <= high.n
  {
    NoOptions(schema);
    assert SchemaTypes(Keyword(schema, "type")) == ["number"];
    assert Conforms(lib, schema, value) <==> ConformsAs(lib, "number", schema, value);
  }

  /** The items of a long enough array conform one by one. */
  lemma {:induction false} TypedArray(lib: Library, schema: Schema, items: Schema, least: int, value: Value)
    requires schema.Keys == {"type", "items", "minItems"} && schema["type"] == Word("array")
    requires schema["items"] == Table(items) && Says(schema, "minItems", least)
    ensures Conforms(lib, schema, value) <==>
            && value.Arr? && |value.items| >= least
            && forall i :: 0 <= i < |value.items| ==> Conforms(lib, items, value.items[i])
  {
    NoOptions(schema);
    assert SchemaTypes(Keyword(schema, "type")) == ["array"];
    assert Conforms(lib, schema, value) <==> ConformsAs(lib, "array", schema, value);
    assert value.Arr? ==> (LongEnough(schema, |value.items|) <==> |value.items| >= least);
    hide LongEnough;
  }

  /** Lengths are in bytes and include the limits, and a pattern binds the whole
      text. */
  lemma {:induction false} SizedString(
      lib: Library, schema: Schema, least: int, most: int, pattern: string, value: Value)
    requires schema.Keys == {"type", "minLength", "maxLength", "pattern"} && schema["type"] == Word("string")
    requires Says(schema, "minLength", least) && Says(schema, "maxLength", most)
    requires pattern != "" && schema["pattern"] == Word(pattern)
    ensures Conforms(lib, schema, value) <==>
            && value.Str? && least <= |value.s| <= most
            && lib.compiles(WholeText(pattern)) && lib.matches(WholeText(pattern), value.s)
  {
    NoOptions(schema);
    assert SchemaTypes(Keyword(schema, "type")) == ["string"];
    assert Conforms(lib, schema, value) <==> ConformsAs(lib, "string", schema, value);
    hide WholeText;
  }

  /** Of the formats only these three bind, and every other name is an annotation. */
  lemma {:induction false} FormattedString(lib: Library, schema: Schema, format: string, value: Value)
    requires schema.Keys == {"type", "format"} && schema["type"] == Word("string")
    requires schema["format"] == Word(format)
    ensures Conforms(lib, schema, value) <==>
            && value.Str?
            && (format == "date-time" ==> lib.isDateTime(value.s))
            && (format == "date" ==> lib.isDate(value.s))
            && (format == "email" ==> SimpleEmail(value.s))
  {
    assert |"type"| == 4 == |"enum"| && "type"[0] != "enum"[0] && |"format"| == 6 && |"anyOf"| == 5;
    assert |"minLength"| == 9 == |"maxLength"| && |"pattern"| == 7;
    assert SchemaTypes(Keyword(schema, "type")) == ["string"];
    assert Conforms(lib, schema, value) <==> ConformsAs(lib, "string", schema, value);
    hide SimpleEmail;
  }
}
