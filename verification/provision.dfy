/** The `provision` command: Terraform variable declarations parsed into variables, the
    generated command's argument lists, each variable's value resolved from the command line,
    auto-generation and the operator's answers, and the variables file written out. The
    operator's answers are a stream of input lines; `json.loads`, `str()` of a dict and the
    random token generator are parameters. */
module Provision {
  import opened Common
  import opened Text
  import opened Json

  /** The variable types the declarations may use. */
  datatype DataType = StringType | BoolType | MapType

  /** The Terraform spelling of each type. */
  function TfType(t: DataType): string {
    match t
    case StringType => "${string}"
    case BoolType => "${bool}"
    case MapType => "${map(string)}"
  }

  /** The type of the command-line option each type is read through. */
  function CliName(t: DataType): string {
    match t
    case StringType => "str"
    case BoolType => "bool"
    case MapType => "str"
  }

  /** The type a Terraform spelling names, if any. */
  function TypeNamed(s: string): (r: Option<DataType>)
    ensures r.Some? ==> TfType(r.value) == s
    ensures r.None? ==> forall t: DataType :: TfType(t) != s
  {
    if s == "${string}" then Some(StringType)
    else if s == "${bool}" then Some(BoolType)
    else if s == "${map(string)}" then Some(MapType)
    else None
  }

  /** A value given on the command line or typed in: a flag's boolean or some text. */
  datatype CliValue = CliBool(b: bool) | CliText(s: string)

  const TrueWords: set<string> := {"yes", "true", "t", "1"}

  /** `_ensure_bool`: a boolean passes through; text is true when its lower-case form is one
      of the words for yes. */
  function EnsureBool(v: CliValue): (r: bool)
    ensures v.CliBool? ==> r == v.b
    ensures v.CliText? ==> (r <==> Lower(v.s) in TrueWords)
  {
    match v
    case CliBool(b) => b
    case CliText(s) => Lower(s) in TrueWords
  }

  /** The reading of text as a boolean ignores case. */
  lemma EnsureBoolIgnoresCase(s: string)
    ensures EnsureBool(CliText(s)) == EnsureBool(CliText(Lower(s)))
  {
    LowerIdempotent(s);
  }

  function TypeError(message: string): Exception {
    Exception("TypeError", message)
  }

  function KeyError(key: string): Exception {
    Exception("KeyError", "'" + key + "'")
  }

  /** A type's parser applied to a value: text and flags pass through unchanged, a boolean is
      read by `EnsureBool`, and a map is read by `json.loads`, which refuses anything but text. */
  function Parse(t: DataType, v: CliValue, loads: string -> Result<Json, Exception>): (r: Result<Json, Exception>)
    ensures t == StringType ==> r == Ok(if v.CliBool? then Bool(v.b) else Str(v.s))
    ensures t == BoolType ==> r == Ok(Bool(EnsureBool(v)))
    ensures t == MapType && v.CliText? ==> r == loads(v.s)
    ensures t == MapType && v.CliBool? ==> r.Err? && r.error.kind == "TypeError"
  {
    match t
    case StringType => Ok(if v.CliBool? then Bool(v.b) else Str(v.s))
    case BoolType => Ok(Bool(EnsureBool(v)))
    case MapType =>
      if v.CliText? then loads(v.s)
      else Err(TypeError("the JSON object must be str, bytes or bytearray, not bool"))
  }

  /** A variable: its name, description, type, whether it must be given, and its value, where
      JSON `null` stands for `None`. */
  datatype Variable = Variable(name: string, description: Json, dataType: DataType, required: bool, value: Json)

  /** `_parse_var`: one declaration, a dict with exactly one key, the variable's name, whose
      definition gives its type, and optionally its description and default. `display` is
      `str()` of the declaration, used in the error message. */
  function ParseVar(raw: map<string, Json>, display: map<string, Json> -> string): (r: Result<Variable, Exception>)
    ensures |raw| != 1 ==> r == Err(ValueError("Invalid variable: " + display(raw)))
    ensures r.Ok? ==>
      && raw.Keys == {r.value.name}
      && raw[r.value.name].Object?
      && var def := raw[r.value.name].fields;
      && Get(def, "type") == Some(Str(TfType(r.value.dataType)))
      && r.value.description == Get(def, "description").GetOr(Str(""))
      && (r.value.required <==> Get(def, "default").None?)
      && r.value.value == Get(def, "default").GetOr(Null)
    ensures |raw| == 1 && r.Err? && (forall k :: k in raw ==> raw[k].Object? && Get(raw[k].fields, "type").Some?) ==>
      forall k :: k in raw ==> var t := Get(raw[k].fields, "type").value;
        r == Err(ValueError("Invalid type: " + (if t.Str? then t.s else Dumps(t))))
        && (t.Str? ==> TypeNamed(t.s).None?)
  {
    if |raw| != 1 then Err(ValueError("Invalid variable: " + display(raw)))
    else
      var name := PickKey(raw);
      var def := raw[name];
      if !def.Object? then Err(TypeError("variable definition is not a mapping"))
      else
        match Get(def.fields, "type")
        case None => Err(KeyError("type"))
        case Some(t) =>
          if !t.Str? || TypeNamed(t.s).None? then
            Err(ValueError("Invalid type: " + (if t.Str? then t.s else Dumps(t))))
          else
            var default := Get(def.fields, "default");
            Ok(Variable(name, Get(def.fields, "description").GetOr(Str("")), TypeNamed(t.s).value,
                        default.None?, default.GetOr(Null)))
  }

  /** The key of a one-key dict. */
  function PickKey(m: map<string, Json>): (k: string)
    requires |m| == 1
    ensures m.Keys == {k}
  {
    var k :| k in m;
    assert |m.Keys - {k}| == 0;
    assert m.Keys == {k} by {
      assert m.Keys - {k} == {};
    }
    k
  }

  /** The declaration Terraform would hold for a variable: its type, its description, and a
      default when it is optional. */
  function Declaration(v: Variable): map<string, Json> {
    map[v.name := Object([("type", Str(TfType(v.dataType))), ("description", v.description)]
                         + (if v.required then [] else [("default", v.value)]))]
  }

  /** Parsing a variable's declaration gives the variable back, when a required variable's
      value is `None`. */
  lemma ParseDeclaration(v: Variable, display: map<string, Json> -> string)
    requires v.required ==> v.value == Null
    ensures ParseVar(Declaration(v), display) == Ok(v)
  {
    var decl := Declaration(v);
    assert decl.Keys == {v.name};
    var fields := decl[v.name].fields;
    assert fields[0].0 == "type" && fields[1].0 == "description";
    assert fields[0].0[0] == 't' && fields[1].0[0] == 'd';
    if !v.required {
      assert fields[2].0 == "default" && fields[2].0[0] == 'd' && fields[2].0[2] == 'f';
      assert fields[1].0[2] == 's';
      GetAt(fields, 0);
      GetAt(fields, 1);
      GetAt(fields, 2);
    } else {
      GetAt(fields, 0);
      GetAt(fields, 1);
      GetAbsent(fields, "default");
    }
    assert TypeNamed(TfType(v.dataType)) == Some(v.dataType);
  }

  // ---------------------------------------------------------------------------
  // The generated command's signature
  // ---------------------------------------------------------------------------

  function RequiredKey(v: Variable): int {
    if v.required then 1 else 0
  }

  /** Insertion of one variable into a list ordered by `required`, after every variable that
      does not come later than it: the step of a stable sort. */
  function InsertStable(v: Variable, s: seq<Variable>): (r: seq<Variable>)
    ensures |r| == |s| + 1
    decreases |s|
  {
    if |s| == 0 then [v]
    else if RequiredKey(s[|s| - 1]) <= RequiredKey(v) then s + [v]
    else InsertStable(v, s[..|s| - 1]) + [s[|s| - 1]]
  }

  /** `sorted(cfg_vars, key=lambda v: v.required)`: Python's sort is stable. */
  function SortByRequired(vs: seq<Variable>): (r: seq<Variable>)
    ensures |r| == |vs|
    decreases |vs|
  {
    if |vs| == 0 then []
    else InsertStable(vs[|vs| - 1], SortByRequired(vs[..|vs| - 1]))
  }

  function Optional(vs: seq<Variable>): (r: seq<Variable>)
    ensures forall i :: 0 <= i < |r| ==> !r[i].required
    decreases |vs|
  {
    if |vs| == 0 then [] else Optional(vs[..|vs| - 1]) + (if vs[|vs| - 1].required then [] else [vs[|vs| - 1]])
  }

  function Mandatory(vs: seq<Variable>): (r: seq<Variable>)
    ensures forall i :: 0 <= i < |r| ==> r[i].required
    decreases |vs|
  {
    if |vs| == 0 then [] else Mandatory(vs[..|vs| - 1]) + (if vs[|vs| - 1].required then [vs[|vs| - 1]] else [])
  }

  lemma {:induction false} InsertAfterOptional(v: Variable, a: seq<Variable>, b: seq<Variable>)
    requires forall i :: 0 <= i < |a| ==> !a[i].required
    requires forall i :: 0 <= i < |b| ==> b[i].required
    requires !v.required
    ensures InsertStable(v, a + b) == a + [v] + b
    decreases |b|
  {
    if |b| == 0 {
      assert a + b == a;
      if |a| > 0 {
        assert (a + b)[|a + b| - 1] == a[|a| - 1];
      }
    } else {
      var ab := a + b;
      assert ab[|ab| - 1] == b[|b| - 1];
      assert ab[..|ab| - 1] == a + b[..|b| - 1];
      InsertAfterOptional(v, a, b[..|b| - 1]);
      assert b == b[..|b| - 1] + [b[|b| - 1]];
    }
  }

  lemma InsertRequiredAppends(v: Variable, s: seq<Variable>)
    requires v.required
    ensures InsertStable(v, s) == s + [v]
  {
  }

  lemma SplitLast(vs: seq<Variable>)
    requires |vs| > 0
    ensures SortByRequired(vs) == InsertStable(vs[|vs| - 1], SortByRequired(vs[..|vs| - 1]))
    ensures vs[|vs| - 1].required ==>
      Optional(vs) == Optional(vs[..|vs| - 1]) && Mandatory(vs) == Mandatory(vs[..|vs| - 1]) + [vs[|vs| - 1]]
    ensures !vs[|vs| - 1].required ==>
      Optional(vs) == Optional(vs[..|vs| - 1]) + [vs[|vs| - 1]] && Mandatory(vs) == Mandatory(vs[..|vs| - 1])
  {
  }

  /** The generated signature lists the optional variables before the required ones, each
      group in declaration order. */
  lemma {:induction false} SortedOptionalFirst(vs: seq<Variable>)
    ensures SortByRequired(vs) == Optional(vs) + Mandatory(vs)
    decreases |vs|
  {
    if |vs| > 0 {
      var init := vs[..|vs| - 1];
      var v := vs[|vs| - 1];
      SortedOptionalFirst(init);
      SplitLast(vs);
      var a: seq<Variable>, b: seq<Variable> := Optional(init), Mandatory(init);
      if v.required {
        InsertRequiredAppends(v, a + b);
        assert a + b + [v] == a + (b + [v]);
      } else {
        InsertAfterOptional(v, a, b);
      }
    }
  }

  /** The generated command's parameters, `name: Optional[type] = None`, in signature order. */
  function ParamDecls(vs: seq<Variable>): (r: seq<string>)
    ensures |r| == |vs|
    ensures forall i :: 0 <= i < |vs| ==> r[i] == SortByRequired(vs)[i].name + ": Optional[" + CliName(SortByRequired(vs)[i].dataType) + "] = None"
  {
    var sorted := SortByRequired(vs);
    assert |sorted| == |multiset(vs)| == |vs|;
    seq(|sorted|, i requires 0 <= i < |sorted| => sorted[i].name + ": Optional[" + CliName(sorted[i].dataType) + "] = None")
  }

  /** The arguments passed along, `name=name`, in declaration order. */
  function PassAlong(vs: seq<Variable>): (r: seq<string>)
    ensures |r| == |vs|
    ensures forall i :: 0 <= i < |vs| ==> r[i] == vs[i].name + "=" + vs[i].name
  {
    seq(|vs|, i requires 0 <= i < |vs| => vs[i].name + "=" + vs[i].name)
  }

  /** In a list of optional variables followed by required ones, everything after a required
      variable is required. */
  lemma RequiredStaysRequired(a: seq<Variable>, b: seq<Variable>, i: nat, j: nat)
    requires forall k :: 0 <= k < |a| ==> !a[k].required
    requires forall k :: 0 <= k < |b| ==> b[k].required
    requires i < j < |a + b| && (a + b)[i].required
    ensures (a + b)[j].required
  {
    assert i >= |a|;
    assert (a + b)[j] == b[j - |a|];
  }

  /** Splitting by `required` loses and adds nothing. */
  lemma {:induction false} PartitionPermutes(vs: seq<Variable>)
    ensures |Optional(vs)| + |Mandatory(vs)| == |vs|
    ensures forall x :: x in Optional(vs) + Mandatory(vs) <==> x in vs
    decreases |vs|
  {
    if |vs| > 0 {
      var init := vs[..|vs| - 1];
      var v := vs[|vs| - 1];
      PartitionPermutes(init);
      SplitLast(vs);
      assert vs == init + [v];
    }
  }

  /** The generated signature lists every variable, no other, and never an optional one after a
      required one. */
  lemma SignatureListsEveryVariable(vs: seq<Variable>)
    ensures |SortByRequired(vs)| == |vs|
    ensures forall x :: x in SortByRequired(vs) <==> x in vs
    ensures forall i, j :: 0 <= i < j < |vs| && SortByRequired(vs)[i].required ==> SortByRequired(vs)[j].required
  {
    SortedOptionalFirst(vs);
    PartitionPermutes(vs);
    forall i, j | 0 <= i < j < |vs| && SortByRequired(vs)[i].required
      ensures SortByRequired(vs)[j].required
    {
      RequiredStaysRequired(Optional(vs), Mandatory(vs), i, j);
    }
  }

  // ---------------------------------------------------------------------------
  // Resolving values
  // ---------------------------------------------------------------------------

  /** The variables filled in when still unset, and the random bytes behind each token. */
  const AutoGenerate: map<string, nat> := map["db_password" := 32, "app_auth_secret" := 64]

  /** The value before the operator is asked: a command-line value, parsed, replaces the
      default; a variable still unset is then auto-generated if it is one of those so filled. */
  function Initial(v: Variable, given: map<string, CliValue>, loads: string -> Result<Json, Exception>,
                   token: nat -> string): (r: Result<Json, Exception>)
    ensures v.name in given ==> (r.Err? <==> Parse(v.dataType, given[v.name], loads).Err?)
    ensures v.name !in given ==> r.Ok?
    ensures r.Ok? ==>
      var before := if v.name in given then Parse(v.dataType, given[v.name], loads).value else v.value;
      r.value == (if before == Null && v.name in AutoGenerate then Str(token(AutoGenerate[v.name])) else before)
  {
    var before :- if v.name in given then Parse(v.dataType, given[v.name], loads) else Ok(v.value);
    Ok(if before == Null && v.name in AutoGenerate then Str(token(AutoGenerate[v.name])) else before)
  }

  function EofError(): Exception {
    Exception("EOFError", "EOF when reading a line")
  }

  /** `input()`: the next line, or EOFError at the end of input. */
  function ReadLine(lines: seq<string>): (r: Result<(string, seq<string>), Exception>)
    ensures r.Ok? <==> |lines| > 0
    ensures r.Ok? ==> lines == [r.value.0] + r.value.1
  {
    if |lines| == 0 then Err(EofError()) else Ok((lines[0], lines[1..]))
  }

  const Answers: set<string> := {"yes", "no", "y", "n"}

  /** The confirmation loop: lines are read until one, lower-cased, is an answer. */
  function Confirm(lines: seq<string>): (r: Result<(string, seq<string>), Exception>)
    ensures r.Ok? ==> r.value.0 in Answers
    ensures r.Ok? ==> |r.value.1| < |lines| && r.value.1 == lines[|lines| - |r.value.1|..]
    ensures r.Err? ==> r.error == EofError()
    decreases |lines|
  {
    if |lines| == 0 then Err(EofError())
    else if Lower(lines[0]) in Answers then Ok((Lower(lines[0]), lines[1..]))
    else Confirm(lines[1..])
  }

  /** The loop succeeds exactly when some line is an answer; otherwise the input runs out. */
  lemma {:induction false} ConfirmNeedsAnswer(lines: seq<string>)
    ensures Confirm(lines).Ok? <==> exists k :: 0 <= k < |lines| && Lower(lines[k]) in Answers
    decreases |lines|
  {
    if |lines| > 0 && Lower(lines[0]) !in Answers {
      var tail := lines[1..];
      ConfirmNeedsAnswer(tail);
      if exists k :: 0 <= k < |lines| && Lower(lines[k]) in Answers {
        var k :| 0 <= k < |lines| && Lower(lines[k]) in Answers;
        assert lines[k] == tail[k - 1];
      }
      if exists k :: 0 <= k < |tail| && Lower(tail[k]) in Answers {
        var k :| 0 <= k < |tail| && Lower(tail[k]) in Answers;
        assert tail[k] == lines[k + 1];
      }
    } else if |lines| > 0 {
      assert Lower(lines[0]) in Answers;
    }
  }

  /** The loop stops at the first answer, every line before it skipped. */
  lemma {:induction false} ConfirmStopsAtFirstAnswer(lines: seq<string>)
    requires Confirm(lines).Ok?
    ensures exists k :: 0 <= k < |lines| && Lower(lines[k]) == Confirm(lines).value.0 && Confirm(lines).value.1 == lines[k + 1..]
                        && forall j :: 0 <= j < k ==> Lower(lines[j]) !in Answers
    decreases |lines|
  {
    var r := Confirm(lines);
    if Lower(lines[0]) !in Answers {
      var tail := lines[1..];
      ConfirmStopsAtFirstAnswer(tail);
      var k :| 0 <= k < |tail| && Lower(tail[k]) == r.value.0 && r.value.1 == tail[k + 1..]
               && forall j :: 0 <= j < k ==> Lower(tail[j]) !in Answers;
      assert tail[k + 1..] == lines[k + 2..];
      assert lines[k + 1] == tail[k];
      assert forall j :: 1 <= j < k + 1 ==> lines[j] == tail[j - 1];
    } else {
      assert Lower(lines[0]) == r.value.0 && r.value.1 == lines[0 + 1..];
    }
  }

  /** A value typed in and parsed, and the input left. */
  function TypeIn(t: DataType, loads: string -> Result<Json, Exception>, lines: seq<string>): (r: Result<(Json, seq<string>), Exception>)
    ensures r.Ok? ==> |lines| > 0 && r.value.1 == lines[1..] && Parse(t, CliText(lines[0]), loads) == Ok(r.value.0)
    ensures |lines| == 0 ==> r == Err(EofError())
  {
    var typed :- ReadLine(lines);
    var parsed :- Parse(t, CliText(typed.0), loads);
    Ok((parsed, typed.1))
  }

  /** The operator's part: a required variable still unset is typed in; otherwise the value is
      confirmed or, on an answer starting with `n`, typed anew. */
  function Ask(v: Variable, value: Json, loads: string -> Result<Json, Exception>, lines: seq<string>): (r: Result<(Json, seq<string>), Exception>)
    ensures r.Ok? ==> |r.value.1| < |lines| && r.value.1 == lines[|lines| - |r.value.1|..]
    ensures v.required && value == Null ==> r == TypeIn(v.dataType, loads, lines)
    ensures !(v.required && value == Null) && |lines| > 0 && Lower(lines[0]) in {"y", "yes"} ==> r == Ok((value, lines[1..]))
    ensures !(v.required && value == Null) && |lines| > 0 && Lower(lines[0]) in {"n", "no"} ==> r == TypeIn(v.dataType, loads, lines[1..])
  {
    if v.required && value == Null then TypeIn(v.dataType, loads, lines)
    else
      var answer :- Confirm(lines);
      if answer.0[0] == 'n' then
        assert answer.0 in {"n", "no"};
        var typed :- TypeIn(v.dataType, loads, answer.1);
        assert typed.1 == lines[|lines| - |typed.1|..];
        Ok(typed)
      else Ok((value, answer.1))
  }

  /** One variable's value settled: its initial value, then the operator's part. The result is
      the variable with its value and the input left. */
  function Resolve(v: Variable, given: map<string, CliValue>, loads: string -> Result<Json, Exception>,
                   token: nat -> string, lines: seq<string>): (r: Result<(Variable, seq<string>), Exception>)
    ensures r.Ok? ==> r.value.0 == v.(value := r.value.0.value)
    ensures r.Ok? ==> |r.value.1| < |lines| && r.value.1 == lines[|lines| - |r.value.1|..]
    ensures Initial(v, given, loads, token).Err? ==> r == Err(Initial(v, given, loads, token).error)
  {
    var value :- Initial(v, given, loads, token);
    var settled :- Ask(v, value, loads, lines);
    Ok((v.(value := settled.0), settled.1))
  }

  /** A value given on the command line and confirmed is the value written. */
  lemma GivenValueKept(v: Variable, given: map<string, CliValue>, loads: string -> Result<Json, Exception>,
                       token: nat -> string, yes: string, rest: seq<string>)
    requires v.name in given && Parse(v.dataType, given[v.name], loads).Ok?
    requires Parse(v.dataType, given[v.name], loads).value != Null
    requires Lower(yes) in {"yes", "y"}
    ensures Resolve(v, given, loads, token, [yes] + rest) == Ok((v.(value := Parse(v.dataType, given[v.name], loads).value), rest))
  {
    var lines := [yes] + rest;
    assert lines[0] == yes && lines[1..] == rest;
  }

  /** Auto-generation fills only the database password and the API secret, and only when no
      value is set. */
  lemma AutoGeneratedOnlyWhenUnset(v: Variable, loads: string -> Result<Json, Exception>, token: nat -> string)
    ensures v.value != Null ==> Initial(v, map[], loads, token) == Ok(v.value)
    ensures v.value == Null && v.name == "db_password" ==> Initial(v, map[], loads, token) == Ok(Str(token(32)))
    ensures v.value == Null && v.name == "app_auth_secret" ==> Initial(v, map[], loads, token) == Ok(Str(token(64)))
    ensures v.name !in {"db_password", "app_auth_secret"} ==> Initial(v, map[], loads, token) == Ok(v.value)
  {
  }

  /** Every variable settled in turn, the input threaded through. */
  function ResolveAll(vs: seq<Variable>, given: map<string, CliValue>, loads: string -> Result<Json, Exception>,
                      token: nat -> string, lines: seq<string>): (r: Result<(seq<Variable>, seq<string>), Exception>)
    ensures r.Ok? ==> |r.value.0| == |vs|
    ensures r.Ok? ==> forall i :: 0 <= i < |vs| ==> r.value.0[i] == vs[i].(value := r.value.0[i].value)
    decreases |vs|
  {
    if |vs| == 0 then Ok(([], lines))
    else
      var first :- Resolve(vs[0], given, loads, token, lines);
      var rest :- ResolveAll(vs[1..], given, loads, token, first.1);
      Ok(([first.0] + rest.0, rest.1))
  }

  // ---------------------------------------------------------------------------
  // Writing the variables file
  // ---------------------------------------------------------------------------

  /** Python truthiness of a value. */
  predicate JsonTruthy(j: Json) {
    match j
    case Null => false
    case Bool(b) => b
    case Int(i) => i != 0
    case Str(s) => s != ""
    case Array(items) => |items| > 0
    case Object(fields) => |fields| > 0
  }

  /** The value of the last variable with a name: `{v.name: v for v in cfg_vars}[name]`. */
  function LastValue(vs: seq<Variable>, name: string): (r: Option<Json>)
    ensures r.None? <==> forall i :: 0 <= i < |vs| ==> vs[i].name != name
    ensures r.Some? ==> exists i :: 0 <= i < |vs| && vs[i].name == name && vs[i].value == r.value
    decreases |vs|
  {
    if |vs| == 0 then None
    else if vs[|vs| - 1].name == name then Some(vs[|vs| - 1].value)
    else
      var r := LastValue(vs[..|vs| - 1], name);
      assert forall i :: 0 <= i < |vs| - 1 ==> vs[..|vs| - 1][i] == vs[i];
      r
  }

  /** Whether a variable is written: the API secret only when authentication is not `none`,
      the firewall only when the app is exposed, everything else always. */
  function Emit(name: string, vs: seq<Variable>): (r: Result<bool, Exception>)
    ensures name != "app_auth_secret" && name != "waf" ==> r == Ok(true)
    ensures name == "app_auth_secret" ==>
      (if LastValue(vs, "app_auth").None? then r == Err(KeyError("app_auth"))
       else r == Ok(LastValue(vs, "app_auth").value != Str("none")))
    ensures name == "waf" ==>
      (if LastValue(vs, "expose_app").None? then r == Err(KeyError("expose_app"))
       else r == Ok(JsonTruthy(LastValue(vs, "expose_app").value)))
  {
    if name == "app_auth_secret" then
      match LastValue(vs, "app_auth")
      case None => Err(KeyError("app_auth"))
      case Some(x) => Ok(x != Str("none"))
    else if name == "waf" then
      match LastValue(vs, "expose_app")
      case None => Err(KeyError("expose_app"))
      case Some(x) => Ok(JsonTruthy(x))
    else Ok(true)
  }

  /** The variables written, in order, out of `part`, judged against all of `vs`. */
  function Emitted(part: seq<Variable>, vs: seq<Variable>): (r: Result<seq<Variable>, Exception>)
    ensures r.Ok? ==> |r.value| <= |part|
    ensures r.Ok? ==> forall i :: 0 <= i < |part| ==> Emit(part[i].name, vs).Ok?
    ensures r.Ok? ==> forall x :: x in r.value <==> x in part && Emit(x.name, vs) == Ok(true)
    decreases |part|
  {
    if |part| == 0 then Ok([])
    else
      var keep :- Emit(part[0].name, vs);
      var rest :- Emitted(part[1..], vs);
      assert forall i :: 1 <= i < |part| ==> part[i] == part[1..][i - 1];
      assert forall x :: x in part <==> x == part[0] || x in part[1..];
      Ok(if keep then [part[0]] + rest else rest)
  }

  /** The length of the longest name, 0 when there are none. */
  function MaxNameLength(vs: seq<Variable>): (n: nat)
    ensures forall i :: 0 <= i < |vs| ==> |vs[i].name| <= n
    ensures |vs| == 0 ==> n == 0
    ensures |vs| > 0 ==> exists i :: 0 <= i < |vs| && |vs[i].name| == n
    decreases |vs|
  {
    if |vs| == 0 then 0
    else
      var m := MaxNameLength(vs[..|vs| - 1]);
      assert forall i :: 0 <= i < |vs| - 1 ==> vs[..|vs| - 1][i] == vs[i];
      if |vs[|vs| - 1].name| > m then |vs[|vs| - 1].name| else m
  }

  function Spaces(n: nat): (r: string)
    ensures |r| == n && forall i :: 0 <= i < n ==> r[i] == ' '
  {
    seq(n, _ => ' ')
  }

  /** `f"{name:<{width}} = {json.dumps(value)}"`: the name padded on the right to the width. */
  function Line(v: Variable, width: nat): (r: string)
    requires |v.name| <= width
  {
    v.name + Spaces(width - |v.name|) + " = " + Dumps(v.value)
  }

  /** `"\n".join(parts)` */
  function JoinLines(parts: seq<string>): string {
    if |parts| == 0 then ""
    else if |parts| == 1 then parts[0]
    else parts[0] + "\n" + JoinLines(parts[1..])
  }

  /** The lines written, one per emitted variable, in declaration order. */
  function Lines(emitted: seq<Variable>, width: nat): (r: seq<string>)
    requires forall i :: 0 <= i < |emitted| ==> |emitted[i].name| <= width
    ensures |r| == |emitted|
    ensures forall i :: 0 <= i < |r| ==> r[i] == Line(emitted[i], width)
  {
    seq(|emitted|, i requires 0 <= i < |emitted| => Line(emitted[i], width))
  }

  /** `_cli_provision`: every variable settled in turn, then the lines of those emitted joined,
      the names padded to the longest name of all. */
  function CliProvision(vs: seq<Variable>, given: map<string, CliValue>, loads: string -> Result<Json, Exception>,
                        token: nat -> string, lines: seq<string>): (r: Result<string, Exception>)
    ensures ResolveAll(vs, given, loads, token, lines).Err? ==> r == Err(ResolveAll(vs, given, loads, token, lines).error)
    ensures r.Ok? ==>
      var settled := ResolveAll(vs, given, loads, token, lines).value.0;
      var emitted := Emitted(settled, settled);
      && emitted.Ok?
      && (forall i :: 0 <= i < |emitted.value| ==> |emitted.value[i].name| <= MaxNameLength(settled))
      && r.value == JoinLines(Lines(emitted.value, MaxNameLength(settled)))
  {
    var resolved :- ResolveAll(vs, given, loads, token, lines);
    var settled := resolved.0;
    var emitted :- Emitted(settled, settled);
    var width := MaxNameLength(settled);
    assert forall i :: 0 <= i < |emitted| ==> emitted[i] in settled;
    Ok(JoinLines(Lines(emitted, width)))
  }

  /** Every line has its name at the start, padded with spaces, and ` = ` at the same column,
      the longest name's length, followed by the value's JSON. */
  lemma LinesAligned(emitted: seq<Variable>, width: nat, i: nat)
    requires forall k :: 0 <= k < |emitted| ==> |emitted[k].name| <= width
    requires i < |emitted|
    ensures var line := Lines(emitted, width)[i];
      && |line| >= width + 3
      && line[..|emitted[i].name|] == emitted[i].name
      && (forall k :: |emitted[i].name| <= k < width ==> line[k] == ' ')
      && line[width..width + 3] == " = "
      && line[width + 3..] == Dumps(emitted[i].value)
  {
    var v := emitted[i];
    var line := Lines(emitted, width)[i];
    var pad := Spaces(width - |v.name|);
    assert line == v.name + pad + " = " + Dumps(v.value);
    assert |v.name + pad| == width;
    assert line[width..width + 3] == (v.name + pad + " = ")[width..width + 3];
  }

  /** The API secret is written exactly when authentication is not `none`, and the firewall
      setting exactly when the app is exposed; other variables are always written. */
  lemma ConditionalVariables(settled: seq<Variable>, v: Variable)
    requires v in settled && Emitted(settled, settled).Ok?
    ensures v.name == "app_auth_secret" ==>
      (v in Emitted(settled, settled).value <==> LastValue(settled, "app_auth").Some? && LastValue(settled, "app_auth").value != Str("none"))
    ensures v.name == "waf" ==>
      (v in Emitted(settled, settled).value <==> LastValue(settled, "expose_app").Some? && JsonTruthy(LastValue(settled, "expose_app").value))
    ensures v.name != "app_auth_secret" && v.name != "waf" ==> v in Emitted(settled, settled).value
  {
  }
}
