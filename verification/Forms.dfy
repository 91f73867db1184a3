/** Declarative run forms: which fields show and are required, what is submitted, and the payload made of it. */
module Forms {
  import opened Options
  import EnvLines
  import Lines
  import Text

  // ---------- values

  /** A value from JSON: nothing, a truth value, a text, or anything else by its text and truth. */
  datatype Value = Null | Flag(on: bool) | Words(text: string) | Other(shown: string, truthy: bool)

  predicate IsEmpty(v: Value) {
    v.Null? || (v.Words? && Lines.Blank(v.text))
  }

  function Shown(v: Value): string {
    match v
    case Null => "None"
    case Flag(on) => if on then "True" else "False"
    case Words(text) => text
    case Other(shown, _) => shown
  }

  function AsPipelineText(v: Value): string {
    if v.Flag? then (if v.on then "true" else "false") else Shown(v)
  }

  function LowerChar(c: char): char {
    if 'A' <= c <= 'Z' then c - 'A' + 'a' else c
  }

  predicate Reads(s: string, lower: string) {
    |s| == |lower| && forall i | 0 <= i < |s| :: LowerChar(s[i]) == lower[i]
  }

  predicate AsBool(v: Value) {
    match v
    case Null => false
    case Flag(on) => on
    case Words(text) => Reads(text, "true")
    case Other(_, truthy) => truthy
  }

  // ---------- conditions

  datatype Operand = Literal(text: string) | Name(name: string)

  /** A condition that compares a field, or one the engine does not support. */
  datatype Condition = Compare(left: string, right: Operand, negated: bool) | Unsupported

  function Normalized(v: Value): string {
    match v
    case Null => ""
    case Flag(on) => if on then "true" else "false"
    case _ => Shown(v)
  }

  function Lookup(values: map<string, Value>, name: string): Value {
    if name in values then values[name] else Null
  }

  /** Whether a condition holds; None when it cannot be evaluated. */
  function Holds(c: Option<Condition>, values: map<string, Value>): Option<bool> {
    match c
    case None => Some(false)
    case Some(Unsupported) => None
    case Some(Compare(left, right, negated)) =>
      var other := match right { case Literal(text) => text case Name(name) => Normalized(Lookup(values, name)) };
      Some((Normalized(Lookup(values, left)) == other) != negated)
  }

  // ---------- fields

  datatype FieldType = StringField | CheckboxField | SelectField
  datatype BindTo = PipelineVar | EnvVar | PipelineData | IsDryRun | LogLevel | Profile

  datatype FieldSpec = FieldSpec(
    name: string, value: Value, fieldType: FieldType, options: Option<seq<string>>, multi: bool,
    required: bool, requiredCondition: Option<Condition>, hideCondition: Option<Condition>, hidden: bool,
    secure: bool, bindTo: BindTo, patterns: seq<string>)

  /** Whether a pattern matches a value from its beginning. */
  type Matcher = (string, string) -> bool

  predicate MatchesAll(f: FieldSpec, text: string, matches: Matcher) {
    forall p | p in f.patterns :: matches(p, text)
  }

  predicate IsValid(f: FieldSpec, v: Value, matches: Matcher) {
    match f.fieldType
    case StringField => v.Words? && MatchesAll(f, v.text, matches)
    case CheckboxField => v.Flag? || (v.Words? && (Reads(v.text, "true") || Reads(v.text, "false")))
    case SelectField =>
      && v.Words? && MatchesAll(f, v.text, matches)
      && (f.options.Some? ==>
            if f.multi then forall part | part in Text.Split(v.text, ',') :: part == "" || part in f.options.value
            else v.text in f.options.value)
  }

  // ---------- the state of a form

  function Resolved(fields: seq<FieldSpec>, user: map<string, Value>): map<string, Value> {
    if fields == [] then map[]
    else
      var k := |fields| - 1;
      var f := fields[k];
      Resolved(fields[..k], user)[f.name := if f.name in user then user[f.name] else f.value]
  }

  /** How a field shows. */
  datatype FieldState = FieldState(visible: bool, required: bool)

  /** None when a condition that is looked at is not supported; a hidden field's second one is not looked at. */
  function StateOf(f: FieldSpec, values: map<string, Value>): Option<FieldState> {
    var hides := if f.hidden then Some(true) else Holds(f.hideCondition, values);
    match hides
    case None => None
    case Some(true) => Some(FieldState(false, false))
    case Some(false) =>
      var requires_ := if f.required then Some(true) else Holds(f.requiredCondition, values);
      match requires_
      case None => None
      case Some(r) => Some(FieldState(true, r))
  }

  datatype FormError = BadCondition | MissingField(name: string) | InvalidField(name: string) | MissingPipelineData
  datatype Result<T> = Ok(value: T) | Err(error: FormError)

  function States(fields: seq<FieldSpec>, values: map<string, Value>): Result<map<string, FieldState>> {
    if fields == [] then Ok(map[])
    else
      var k := |fields| - 1;
      match States(fields[..k], values)
      case Err(e) => Err(e)
      case Ok(before) =>
        match StateOf(fields[k], values)
        case None => Err(BadCondition)
        case Some(state) => Ok(before[fields[k].name := state])
  }

  // ---------- submitting

  /** What one field submits: an error, nothing for an empty field, or its value. */
  function Submit(f: FieldSpec, state: FieldState, v: Value, matches: Matcher): Result<Option<Value>> {
    if IsEmpty(v) then if state.visible && state.required then Err(MissingField(f.name)) else Ok(None)
    else if state.visible && !IsValid(f, v, matches) then Err(InvalidField(f.name))
    else Ok(Some(v))
  }

  /** Every field has a resolved value and a state. */
  predicate Covered(fields: seq<FieldSpec>, states: map<string, FieldState>, values: map<string, Value>) {
    forall f | f in fields :: f.name in states && f.name in values
  }

  function Collect(
    fields: seq<FieldSpec>, states: map<string, FieldState>, values: map<string, Value>, matches: Matcher)
    : Result<map<string, Value>>
    requires Covered(fields, states, values)
  {
    if fields == [] then Ok(map[])
    else
      var k := |fields| - 1;
      var f := fields[k];
      match Collect(fields[..k], states, values, matches)
      case Err(e) => Err(e)
      case Ok(before) =>
        match Submit(f, states[f.name], values[f.name], matches)
        case Err(e) => Err(e)
        case Ok(None) => Ok(before)
        case Ok(Some(v)) => Ok(before[f.name := v])
  }

  // ---------- assembling

  /** The first field bound to a target that has a submitted value, or a default one. */
  function Singleton(fields: seq<FieldSpec>, submitted: map<string, Value>, target: BindTo): Option<Value> {
    if fields == [] then None
    else
      var f := fields[0];
      if f.bindTo == target && f.name in submitted then Some(submitted[f.name])
      else if f.bindTo == target && !IsEmpty(f.value) then Some(f.value)
      else Singleton(fields[1..], submitted, target)
  }

  /** The pipeline variables among the submitted values, the secure ones or the others. */
  function Variables(fields: seq<FieldSpec>, submitted: map<string, Value>, secure: bool): map<string, string> {
    if fields == [] then map[]
    else
      var k := |fields| - 1;
      var f, before := fields[k], Variables(fields[..k], submitted, secure);
      if f.name in submitted && f.bindTo == PipelineVar && f.secure == secure then
        before[f.name := AsPipelineText(submitted[f.name])]
      else before
  }

  function EnvVariables(fields: seq<FieldSpec>, submitted: map<string, Value>): map<string, Value> {
    if fields == [] then map[]
    else
      var k := |fields| - 1;
      var f, before := fields[k], EnvVariables(fields[..k], submitted);
      if f.name in submitted && f.bindTo == EnvVar then before[f.name := submitted[f.name]] else before
  }

  /** Variables as lines in the order of their names, nothing when there are none. */
  function VariableText(vars: map<string, string>): Option<string> {
    if vars == map[] then None else Some(Lines.Join(EnvLines.PairLines(Text.Sorted(vars.Keys), vars)))
  }

  datatype FormPayload = FormPayload(
    profileId: string, pipelineData: string, pipelineVars: Option<string>, pipelineVarsSecure: Option<string>,
    isDryRun: bool, logLevel: string, envVars: Option<map<string, Value>>)

  function Assemble(fields: seq<FieldSpec>, submitted: map<string, Value>): Result<FormPayload> {
    match Singleton(fields, submitted, PipelineData)
    case None => Err(MissingPipelineData)
    case Some(data) =>
      var env := EnvVariables(fields, submitted);
      Ok(FormPayload(
        Shown(Singleton(fields, submitted, Profile).GetOr(Words("default"))), Shown(data),
        VariableText(Variables(fields, submitted, false)), VariableText(Variables(fields, submitted, true)),
        AsBool(Singleton(fields, submitted, IsDryRun).GetOr(Flag(false))),
        Shown(Singleton(fields, submitted, LogLevel).GetOr(Words("INFO"))),
        if env == map[] then None else Some(env)))
  }

  /** The fields of a contract by name: a repeated name keeps its first place and takes the last definition. */
  function Table(specs: seq<FieldSpec>): (fields: seq<FieldSpec>)
    ensures DistinctNames(fields)
  {
    if specs == [] then []
    else
      var k := |specs| - 1;
      Entered(Table(specs[..k]), specs[k])
  }

  predicate DistinctNames(fields: seq<FieldSpec>) {
    forall i, j | 0 <= i < j < |fields| :: fields[i].name != fields[j].name
  }

  function Entered(fields: seq<FieldSpec>, spec: FieldSpec): (r: seq<FieldSpec>)
    requires DistinctNames(fields)
    ensures DistinctNames(r)
    ensures forall f | f in r :: f in fields || f == spec
  {
    if fields == [] then [spec]
    else if fields[0].name == spec.name then [spec] + fields[1..]
    else
      var rest := Entered(fields[1..], spec);
      assert forall i | 0 <= i < |rest| :: rest[i] in rest;
      [fields[0]] + rest
  }

  lemma {:induction false} StatesCover(fields: seq<FieldSpec>, values: map<string, Value>)
    requires States(fields, values).Ok?
    ensures forall f | f in fields :: f.name in States(fields, values).value
  {
    hide StateOf;
    if fields != [] { StatesCover(fields[..|fields| - 1], values); }
  }

  lemma {:induction false} ResolvedCovers(fields: seq<FieldSpec>, user: map<string, Value>)
    ensures forall f | f in fields :: f.name in Resolved(fields, user)
  {
    if fields != [] { ResolvedCovers(fields[..|fields| - 1], user); }
  }

  function Build(specs: seq<FieldSpec>, user: map<string, Value>, matches: Matcher): Result<FormPayload> {
    var fields := Table(specs);
    var values := Resolved(fields, user);
    match States(fields, values)
    case Err(e) => Err(e)
    case Ok(states) =>
      StatesCover(fields, values);
      ResolvedCovers(fields, user);
      match Collect(fields, states, values, matches)
      case Err(e) => Err(e)
      case Ok(submitted) => Assemble(fields, submitted)
  }

  // ---------- the loops

  /** Resolves the values, then the states field by field. */
  method Evaluate(fields: seq<FieldSpec>, user: map<string, Value>)
    returns (values: map<string, Value>, states: Result<map<string, FieldState>>)
    ensures values == Resolved(fields, user) && states == States(fields, values)
  {
    values := map[];
    for i := 0 to |fields|
      invariant values == Resolved(fields[..i], user)
    {
      assert fields[..i + 1][..i] == fields[..i];
      var f := fields[i];
      if f.name in user {
        values := values[f.name := user[f.name]];
      } else {
        values := values[f.name := f.value];
      }
    }
    assert fields[..|fields|] == fields;
    hide Holds;
    var found: map<string, FieldState> := map[];
    for i := 0 to |fields|
      invariant States(fields[..i], values) == Ok(found)
    {
      assert fields[..i + 1][..i] == fields[..i];
      var f := fields[i];
      var hidden := if f.hidden then Some(true) else Holds(f.hideCondition, values);
      if hidden.None? {
        BadStays(fields, i, values);
        return values, Err(BadCondition);
      }
      if hidden.value {
        found := found[f.name := FieldState(false, false)];
      } else {
        var required := if f.required then Some(true) else Holds(f.requiredCondition, values);
        if required.None? {
          BadStays(fields, i, values);
          return values, Err(BadCondition);
        }
        found := found[f.name := FieldState(true, required.value)];
      }
    }
    states := Ok(found);
  }

  /** The first condition that cannot be evaluated decides. */
  lemma {:induction false} BadStays(fields: seq<FieldSpec>, i: nat, values: map<string, Value>)
    requires i < |fields| && StateOf(fields[i], values).None? && States(fields[..i], values).Ok?
    ensures States(fields, values) == Err(BadCondition)
  {
    hide StateOf;
    var k := |fields| - 1;
    if i < k {
      assert fields[..k][..i] == fields[..i];
      BadStays(fields[..k], i, values);
    }
  }

  method CollectSubmitted(
    fields: seq<FieldSpec>, states: map<string, FieldState>, values: map<string, Value>, matches: Matcher)
    returns (r: Result<map<string, Value>>)
    requires Covered(fields, states, values)
    ensures r == Collect(fields, states, values, matches)
  {
    hide IsEmpty, IsValid;
    var submitted: map<string, Value> := map[];
    for i := 0 to |fields|
      invariant Collect(fields[..i], states, values, matches) == Ok(submitted)
    {
      assert fields[..i + 1][..i] == fields[..i];
      var f := fields[i];
      var value := values[f.name];
      if IsEmpty(value) {
        if states[f.name].visible && states[f.name].required {
          ErrorStays(fields, i, states, values, matches);
          return Err(MissingField(f.name));
        }
        continue;
      }
      if states[f.name].visible && !IsValid(f, value, matches) {
        ErrorStays(fields, i, states, values, matches);
        return Err(InvalidField(f.name));
      }
      submitted := submitted[f.name := value];
    }
    assert fields[..|fields|] == fields;
    r := Ok(submitted);
  }

  lemma {:induction false} ErrorStays(
    fields: seq<FieldSpec>, i: nat, states: map<string, FieldState>, values: map<string, Value>, matches: Matcher)
    requires Covered(fields, states, values) && i < |fields| && Collect(fields[..i], states, values, matches).Ok?
    requires Submit(fields[i], states[fields[i].name], values[fields[i].name], matches).Err?
    ensures Collect(fields, states, values, matches)
            == Err(Submit(fields[i], states[fields[i].name], values[fields[i].name], matches).error)
  {
    hide Submit;
    var k := |fields| - 1;
    if i < k {
      assert fields[..k][..i] == fields[..i];
      ErrorStays(fields[..k], i, states, values, matches);
    }
  }

  method GetSingleton(fields: seq<FieldSpec>, submitted: map<string, Value>, target: BindTo) returns (r: Option<Value>)
    ensures r == Singleton(fields, submitted, target)
  {
    hide IsEmpty;
    for i := 0 to |fields|
      invariant Singleton(fields, submitted, target) == Singleton(fields[i..], submitted, target)
    {
      assert fields[i..][1..] == fields[i + 1..];
      var f := fields[i];
      if f.bindTo != target {
        continue;
      }
      if f.name in submitted {
        return Some(submitted[f.name]);
      }
      if !IsEmpty(f.value) {
        return Some(f.value);
      }
    }
    r := None;
  }

  method AssemblePayload(fields: seq<FieldSpec>, submitted: map<string, Value>) returns (r: Result<FormPayload>)
    ensures r == Assemble(fields, submitted)
  {
    hide Singleton, AsBool, Shown, VariableText, AsPipelineText;
    var profileId := GetSingleton(fields, submitted, Profile);
    var pipelineData := GetSingleton(fields, submitted, PipelineData);
    if pipelineData.None? {
      return Err(MissingPipelineData);
    }
    var logLevel := GetSingleton(fields, submitted, LogLevel);
    var isDryRun := GetSingleton(fields, submitted, IsDryRun);
    var vars: map<string, string>, secure: map<string, string>, env: map<string, Value> := map[], map[], map[];
    for i := 0 to |fields|
      invariant vars == Variables(fields[..i], submitted, false)
      invariant secure == Variables(fields[..i], submitted, true)
      invariant env == EnvVariables(fields[..i], submitted)
    {
      assert fields[..i + 1][..i] == fields[..i];
      var f := fields[i];
      if f.name !in submitted {
        continue;
      }
      var value := submitted[f.name];
      if f.bindTo == PipelineVar {
        var text := AsPipelineText(value);
        if f.secure {
          secure := secure[f.name := text];
        } else {
          vars := vars[f.name := text];
        }
      } else if f.bindTo == EnvVar {
        env := env[f.name := value];
      }
    }
    assert fields[..|fields|] == fields;
    r := Ok(FormPayload(
      Shown(profileId.GetOr(Words("default"))), Shown(pipelineData.value), VariableText(vars), VariableText(secure),
      AsBool(isDryRun.GetOr(Flag(false))), Shown(logLevel.GetOr(Words("INFO"))),
      if env == map[] then None else Some(env)));
  }

  method BuildRunPayload(specs: seq<FieldSpec>, user: map<string, Value>, matches: Matcher)
    returns (r: Result<FormPayload>)
    ensures r == Build(specs, user, matches)
  {
    hide Table, Resolved, States, Collect, Assemble;
    var fields := Table(specs);
    var values, states := Evaluate(fields, user);
    if states.Err? {
      return Err(states.error);
    }
    StatesCover(fields, values);
    ResolvedCovers(fields, user);
    var submitted := CollectSubmitted(fields, states.value, values, matches);
    if submitted.Err? {
      return Err(submitted.error);
    }
    r := AssemblePayload(fields, submitted.value);
  }
}
