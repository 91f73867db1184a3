/** What a payload holds: the user's value before the default, the first bound field before the others. */
module PayloadLaws {
  import opened FormLaws
  import opened Forms
  import opened Options
  import Text

  // ---------- the fields that speak for a target

  /** A field bound to a target that has a value, from the user or by default. */
  predicate Speaks(f: FieldSpec, user: map<string, Value>, target: BindTo) {
    f.bindTo == target && (!IsEmpty(ValueOf(f, user)) || !IsEmpty(f.value))
  }

  predicate SpeaksFirst(fields: seq<FieldSpec>, user: map<string, Value>, target: BindTo, i: nat) {
    i < |fields| && Speaks(fields[i], user, target) && forall j | 0 <= j < i :: !Speaks(fields[j], user, target)
  }

  /** What such a field says: the user's value if that is not empty, the default otherwise. */
  function Said(f: FieldSpec, user: map<string, Value>): Value {
    if !IsEmpty(ValueOf(f, user)) then ValueOf(f, user) else f.value
  }

  /** The value of a target: what the first field says that speaks for it, or a fixed value when none does. */
  predicate Stands(fields: seq<FieldSpec>, user: map<string, Value>, target: BindTo, fallback: Value, v: Value) {
    && (forall i | 0 <= i < |fields| && SpeaksFirst(fields, user, target, i) :: v == Said(fields[i], user))
    && ((forall f | f in fields :: !Speaks(f, user, target)) ==> v == fallback)
  }

  /** The submitted values are those of the fields that are not empty. */
  predicate Submitted(fields: seq<FieldSpec>, user: map<string, Value>, submitted: map<string, Value>) {
    && (forall f | f in fields :: f.name in submitted <==> !IsEmpty(ValueOf(f, user)))
    && (forall f | f in fields && f.name in submitted :: submitted[f.name] == ValueOf(f, user))
  }

  lemma {:induction false} FirstSpeaks(
    fields: seq<FieldSpec>, user: map<string, Value>, submitted: map<string, Value>, target: BindTo, i: nat)
    requires Submitted(fields, user, submitted) && SpeaksFirst(fields, user, target, i)
    ensures Singleton(fields, submitted, target) == Some(Said(fields[i], user))
    decreases i
  {
    hide IsEmpty, ValueOf;
    assert fields[0] in fields;
    if i > 0 {
      var rest := fields[1..];
      assert !Speaks(fields[0], user, target);
      assert forall j | 0 <= j < |rest| :: rest[j] == fields[j + 1] && rest[j] in fields;
      FirstSpeaks(rest, user, submitted, target, i - 1);
    }
  }

  lemma {:induction false} NoneSpeaks(
    fields: seq<FieldSpec>, user: map<string, Value>, submitted: map<string, Value>, target: BindTo)
    requires Submitted(fields, user, submitted) && forall f | f in fields :: !Speaks(f, user, target)
    ensures Singleton(fields, submitted, target) == None
  {
    hide IsEmpty, ValueOf;
    if fields != [] {
      assert fields[0] in fields && forall f | f in fields[1..] :: f in fields;
      NoneSpeaks(fields[1..], user, submitted, target);
    }
  }

  lemma {:induction false} SomeSpeaksFirst(fields: seq<FieldSpec>, user: map<string, Value>, target: BindTo)
    returns (i: nat)
    requires exists f :: f in fields && Speaks(f, user, target)
    ensures SpeaksFirst(fields, user, target, i)
  {
    hide Speaks;
    if Speaks(fields[0], user, target) {
      i := 0;
    } else {
      assert fields == [fields[0]] + fields[1..];
      i := SomeSpeaksFirst(fields[1..], user, target);
      i := i + 1;
    }
  }

  lemma {:induction false} SingletonStands(
    fields: seq<FieldSpec>, user: map<string, Value>, submitted: map<string, Value>, target: BindTo, fallback: Value)
    requires Submitted(fields, user, submitted)
    ensures Stands(fields, user, target, fallback, Singleton(fields, submitted, target).GetOr(fallback))
    ensures Singleton(fields, submitted, target).Some? <==> exists f :: f in fields && Speaks(f, user, target)
  {
    hide Speaks, Said, Singleton, Submitted, SpeaksFirst;
    forall i | 0 <= i < |fields| && SpeaksFirst(fields, user, target, i)
      ensures Singleton(fields, submitted, target) == Some(Said(fields[i], user))
    {
      FirstSpeaks(fields, user, submitted, target, i);
    }
    if exists f :: f in fields && Speaks(f, user, target) {
      var i := SomeSpeaksFirst(fields, user, target);
      FirstIsField(fields, user, target, i);
    } else {
      NoneSpeaks(fields, user, submitted, target);
    }
  }

  lemma {:induction false} FirstIsField(fields: seq<FieldSpec>, user: map<string, Value>, target: BindTo, i: nat)
    requires SpeaksFirst(fields, user, target, i)
    ensures i < |fields|
  {
  }

  // ---------- the environment

  /** The environment a form stands for: a variable each for the fields bound so that are not empty. */
  predicate EnvStandsFor(fields: seq<FieldSpec>, user: map<string, Value>, env: map<string, Value>) {
    && (forall f | f in fields && f.bindTo == EnvVar && !IsEmpty(ValueOf(f, user)) ::
          f.name in env && env[f.name] == ValueOf(f, user))
    && (forall name | name in env ::
          exists f :: f in fields && f.name == name && f.bindTo == EnvVar && !IsEmpty(ValueOf(f, user)))
  }

  lemma {:induction false} EnvironmentAt(
    fields: seq<FieldSpec>, user: map<string, Value>, submitted: map<string, Value>)
    requires DistinctNames(fields) && Submitted(fields, user, submitted)
    ensures EnvStandsFor(fields, user, EnvVariables(fields, submitted))
  {
    hide IsEmpty, ValueOf;
    if fields != [] {
      var k := |fields| - 1;
      DistinctPrefix(fields);
      assert fields[k] in fields && forall f | f in fields :: f in fields[..k] || f == fields[k];
      assert Submitted(fields[..k], user, submitted);
      hide DistinctNames;
      EnvironmentAt(fields[..k], user, submitted);
      var before, env := EnvVariables(fields[..k], submitted), EnvVariables(fields, submitted);
      assert env == if fields[k].name in submitted && fields[k].bindTo == EnvVar
                    then before[fields[k].name := submitted[fields[k].name]] else before;
      hide EnvVariables;
      OneMoreVariable(fields, user, submitted, before, env);
    }
  }

  lemma {:induction false} OneMoreVariable(
    fields: seq<FieldSpec>, user: map<string, Value>, submitted: map<string, Value>, before: map<string, Value>,
    env: map<string, Value>)
    requires fields != [] && Submitted(fields, user, submitted)
    requires var k := |fields| - 1;
             && (forall f | f in fields[..k] :: f in fields && f.name != fields[k].name)
             && EnvStandsFor(fields[..k], user, before)
             && env == if fields[k].name in submitted && fields[k].bindTo == EnvVar
                       then before[fields[k].name := submitted[fields[k].name]] else before
    ensures EnvStandsFor(fields, user, env)
  {
    hide IsEmpty, ValueOf;
    var k := |fields| - 1;
    assert fields[k] in fields && forall f | f in fields :: f in fields[..k] || f == fields[k];
  }

  // ---------- the payload

  /**
   * For every payload that is built and each of the four single targets: the user's value is taken before the default,
   * and the first field of the table that speaks for the target before the others. Without such a field the profile is
   * `default`, the log level `INFO`, and the run no dry run. The environment is that of the fields bound to it.
   */
  lemma PayloadHolds(specs: seq<FieldSpec>, user: map<string, Value>, matches: Matcher)
    returns (data: Value, profile: Value, logLevel: Value, dryRun: Value, env: map<string, Value>)
    requires Build(specs, user, matches).Ok?
    ensures var fields, p := Table(specs), Build(specs, user, matches).value;
            && p.pipelineData == Shown(data) && Stands(fields, user, PipelineData, Null, data)
            && (exists f :: f in fields && Speaks(f, user, PipelineData))
            && p.profileId == Shown(profile) && Stands(fields, user, Profile, Words("default"), profile)
            && p.logLevel == Shown(logLevel) && Stands(fields, user, LogLevel, Words("INFO"), logLevel)
            && p.isDryRun == AsBool(dryRun) && Stands(fields, user, IsDryRun, Flag(false), dryRun)
            && p.envVars == (if env == map[] then None else Some(env)) && EnvStandsFor(fields, user, env)
  {
    hide StateOf, IsEmpty, IsValid, Table, Resolved, States, Collect, Singleton, ValueOf, Stands, EnvStandsFor, Speaks,
         AsBool, Shown, VariableText, EnvVariables, Variables;
    var fields := Table(specs);
    var values := Resolved(fields, user);
    ResolvedAt(fields, user);
    StatesAt(fields, values);
    var states := States(fields, values).value;
    CollectedAt(fields, states, values, matches);
    var submitted := Collect(fields, states, values, matches).value;
    SingletonStands(fields, user, submitted, PipelineData, Null);
    SingletonStands(fields, user, submitted, Profile, Words("default"));
    SingletonStands(fields, user, submitted, LogLevel, Words("INFO"));
    SingletonStands(fields, user, submitted, IsDryRun, Flag(false));
    EnvironmentAt(fields, user, submitted);
    data := Singleton(fields, submitted, PipelineData).GetOr(Null);
    profile := Singleton(fields, submitted, Profile).GetOr(Words("default"));
    logLevel := Singleton(fields, submitted, LogLevel).GetOr(Words("INFO"));
    dryRun := Singleton(fields, submitted, IsDryRun).GetOr(Flag(false));
    env := EnvVariables(fields, submitted);
  }

  // ---------- what values and conditions read as

  /** Text is taken as it is; a text is true exactly if it spells `true` in any case; a truth value is lower case only
      among the variables of a pipeline. */
  lemma {:induction false} ValuesRead(text: string, on: bool)
    ensures Shown(Words(text)) == AsPipelineText(Words(text)) == text
    ensures Shown(Flag(on)) == if on then "True" else "False"
    ensures AsPipelineText(Flag(on)) == if on then "true" else "false"
    ensures AsBool(Flag(on)) == on && AsBool(Words("True")) && AsBool(Words("true")) && !AsBool(Words("1"))
  {
  }

  /** What a condition sees of a field: nothing where it is missing or null. */
  predicate Seen(name: string, values: map<string, Value>, text: string) {
    if name !in values || values[name] == Null then text == ""
    else if values[name] == Flag(true) then text == "true"
    else if values[name] == Flag(false) then text == "false"
    else values[name] in {Words(text), Other(text, true), Other(text, false)}
  }

  /** A condition compares what it sees of a field with a text or another field; none is one that does not hold. */
  lemma {:induction false} ConditionMeans(
    left: string, right: Operand, negated: bool, values: map<string, Value>, a: string, b: string)
    requires Seen(left, values, a) && if right.Literal? then b == right.text else Seen(right.name, values, b)
    ensures Holds(Some(Compare(left, right, negated)), values) == Some(if negated then a != b else a == b)
    ensures Holds(None, values) == Some(false) && Holds(Some(Unsupported), values) == None
  {
  }

  /** A choice of several is valid exactly if each piece between its commas is an option or empty. */
  lemma {:induction false} ChoicesInTurn(f: FieldSpec, piece: string, rest: string, matches: Matcher)
    requires f.fieldType == SelectField && f.multi && f.options.Some? && f.patterns == [] && ',' !in piece
    ensures IsValid(f, Words(piece), matches) <==> piece == "" || piece in f.options.value
    ensures IsValid(f, Words(piece + "," + rest), matches) <==>
              IsValid(f, Words(piece), matches) && IsValid(f, Words(rest), matches)
  {
    Text.SplitNone(piece, ',');
    Text.SplitFirst(piece, ',', rest);
    hide Text.Split;
    var all := Text.Split(piece + "," + rest, ',');
    assert piece in all && forall part | part in Text.Split(rest, ',') :: part in all;
  }

  /** A field shows exactly if it is not hidden and its hiding condition does not hold; a shown one is required exactly
      if it says so or its condition holds. Only a condition that is looked at has to be one that is supported. */
  lemma {:induction false} StateMeans(f: FieldSpec, values: map<string, Value>)
    ensures var hiding, requiring := Holds(f.hideCondition, values), Holds(f.requiredCondition, values);
            && (StateOf(f, values).None? <==>
                  !f.hidden && (hiding.None? || (hiding == Some(false) && !f.required && requiring.None?)))
            && (StateOf(f, values).Some? ==>
                  var state := StateOf(f, values).value;
                  && (state.visible <==> !f.hidden && hiding == Some(false))
                  && (state.required <==> state.visible && (f.required || requiring == Some(true))))
  {
    hide Holds;
  }
}
