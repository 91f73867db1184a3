/** When a form gives a payload, and what its variables are. */
module FormLaws {
  import opened EnvLines
  import opened Forms
  import opened Options
  import Lines
  import Text

  /** The value a field has: the user's, or its default. */
  function ValueOf(f: FieldSpec, user: map<string, Value>): Value {
    if f.name in user then user[f.name] else f.value
  }

  /** What a form asks of one field: conditions it can evaluate, and of a visible field no gap and a valid value. */
  predicate Acceptable(f: FieldSpec, user: map<string, Value>, values: map<string, Value>, matches: Matcher) {
    var state, v := StateOf(f, values), ValueOf(f, user);
    && state.Some?
    && (state.value.visible ==> if IsEmpty(v) then !state.value.required else IsValid(f, v, matches))
  }

  /** Some field bound to the pipeline data has a value or a default. */
  predicate HasPipelineData(fields: seq<FieldSpec>, user: map<string, Value>) {
    exists f | f in fields :: f.bindTo == PipelineData && !(IsEmpty(ValueOf(f, user)) && IsEmpty(f.value))
  }

  // ---------- fields one by one

  lemma {:induction false} DistinctPrefix(fields: seq<FieldSpec>)
    requires DistinctNames(fields) && fields != []
    ensures DistinctNames(fields[..|fields| - 1])
    ensures forall f | f in fields[..|fields| - 1] :: f in fields && f.name != fields[|fields| - 1].name
  {
  }

  lemma {:induction false} ResolvedAt(fields: seq<FieldSpec>, user: map<string, Value>)
    requires DistinctNames(fields)
    ensures forall f | f in fields ::
              f.name in Resolved(fields, user) && Resolved(fields, user)[f.name] == ValueOf(f, user)
  {
    if fields != [] {
      DistinctPrefix(fields);
      ResolvedAt(fields[..|fields| - 1], user);
    }
  }

  lemma {:induction false} StatesAt(fields: seq<FieldSpec>, values: map<string, Value>)
    requires DistinctNames(fields)
    ensures States(fields, values).Ok? <==> forall f | f in fields :: StateOf(f, values).Some?
    ensures States(fields, values).Ok? ==>
            forall f | f in fields :: f.name in States(fields, values).value
                                      && Some(States(fields, values).value[f.name]) == StateOf(f, values)
  {
    hide StateOf;
    if fields != [] {
      DistinctPrefix(fields);
      StatesAt(fields[..|fields| - 1], values);
      assert fields[|fields| - 1] in fields;
    }
  }

  predicate CanSubmit(f: FieldSpec, states: map<string, FieldState>, values: map<string, Value>, matches: Matcher)
    requires f.name in states && f.name in values
  {
    Submit(f, states[f.name], values[f.name], matches).Ok?
  }

  /** A submission goes through exactly if that of each field does, and holds exactly the values that are not empty. */
  lemma {:induction false} CollectedAt(
    fields: seq<FieldSpec>, states: map<string, FieldState>, values: map<string, Value>, matches: Matcher)
    requires DistinctNames(fields) && Covered(fields, states, values)
    ensures Collect(fields, states, values, matches).Ok? <==>
            forall f | f in fields :: CanSubmit(f, states, values, matches)
    ensures Collect(fields, states, values, matches).Ok? ==>
            Submits(fields, values, Collect(fields, states, values, matches).value)
  {
    hide IsEmpty, IsValid;
    if fields != [] {
      DistinctPrefix(fields);
      CollectedAt(fields[..|fields| - 1], states, values, matches);
      assert fields[|fields| - 1] in fields;
    }
  }

  /** The submitted values: those of the fields that are not empty, and no others. */
  predicate Submits(fields: seq<FieldSpec>, values: map<string, Value>, submitted: map<string, Value>) {
    && (forall f | f in fields :: f.name in values)
    && (forall f | f in fields :: f.name in submitted <==> !IsEmpty(values[f.name]))
    && (forall f | f in fields && f.name in submitted :: submitted[f.name] == values[f.name])
    && (forall name | name in submitted :: exists f :: f in fields && f.name == name)
  }

  lemma {:induction false} SingletonFound(fields: seq<FieldSpec>, submitted: map<string, Value>, target: BindTo)
    ensures Singleton(fields, submitted, target).Some? <==>
            exists f | f in fields :: f.bindTo == target && (f.name in submitted || !IsEmpty(f.value))
  {
    hide IsEmpty;
    if fields != [] {
      SingletonFound(fields[1..], submitted, target);
      assert fields == [fields[0]] + fields[1..];
      assert fields[0] in fields;
    }
  }

  // ---------- when a form gives a payload

  /**
   * A form gives a payload exactly if every condition it looks at can be evaluated, no visible required field is
   * empty, every visible field that is not empty is valid, and there is pipeline data. Hidden fields are not checked.
   */
  lemma {:induction false} BuildsExactlyIf(specs: seq<FieldSpec>, user: map<string, Value>, matches: Matcher)
    ensures var fields := Table(specs);
            Build(specs, user, matches).Ok? <==>
              && (forall f | f in fields :: Acceptable(f, user, Resolved(fields, user), matches))
              && HasPipelineData(fields, user)
  {
    hide StateOf, IsEmpty, IsValid, Table, Resolved, States, Collect, Singleton, ValueOf;
    var fields := Table(specs);
    var values := Resolved(fields, user);
    ResolvedAt(fields, user);
    StatesAt(fields, values);
    if States(fields, values).Ok? {
      var states := States(fields, values).value;
      CollectedAt(fields, states, values, matches);
      var submitted := Collect(fields, states, values, matches);
      if submitted.Ok? { SingletonFound(fields, submitted.value, PipelineData); }
    }
  }

  // ---------- the variables of a payload

  /** The pipeline variables a form stands for, secure or not: a field each that is bound so and not empty. */
  predicate StandsFor(fields: seq<FieldSpec>, user: map<string, Value>, secure: bool, vars: map<string, string>) {
    && (forall f | f in fields && f.bindTo == PipelineVar && f.secure == secure && !IsEmpty(ValueOf(f, user)) ::
          f.name in vars && vars[f.name] == AsPipelineText(ValueOf(f, user)))
    && (forall name | name in vars ::
          exists f :: f in fields && f.name == name && f.bindTo == PipelineVar && f.secure == secure
                      && !IsEmpty(ValueOf(f, user)))
  }

  lemma {:induction false} VariablesAt(
    fields: seq<FieldSpec>, user: map<string, Value>, submitted: map<string, Value>, secure: bool)
    requires DistinctNames(fields)
    requires forall f | f in fields :: f.name in submitted <==> !IsEmpty(ValueOf(f, user))
    requires forall f | f in fields && f.name in submitted :: submitted[f.name] == ValueOf(f, user)
    ensures StandsFor(fields, user, secure, Variables(fields, submitted, secure))
  {
    hide IsEmpty, ValueOf, AsPipelineText, StandsFor, DistinctNames;
    if fields == [] {
      NothingStands(user, secure);
    } else {
      var k := |fields| - 1;
      DistinctPrefix(fields);
      assert fields[k] in fields;
      VariablesAt(fields[..k], user, submitted, secure);
      var before := Variables(fields[..k], submitted, secure);
      if fields[k].bindTo == PipelineVar && fields[k].secure == secure && !IsEmpty(ValueOf(fields[k], user)) {
        OneMore(fields, user, secure, before);
      } else {
        NoneMore(fields, user, secure, before);
      }
    }
  }

  lemma {:induction false} NothingStands(user: map<string, Value>, secure: bool)
    ensures StandsFor([], user, secure, map[])
  {
  }

  lemma {:induction false} OneMore(
    fields: seq<FieldSpec>, user: map<string, Value>, secure: bool, before: map<string, string>)
    requires DistinctNames(fields) && fields != []
    requires var f := fields[|fields| - 1]; f.bindTo == PipelineVar && f.secure == secure && !IsEmpty(ValueOf(f, user))
    requires StandsFor(fields[..|fields| - 1], user, secure, before)
    ensures var f := fields[|fields| - 1];
            StandsFor(fields, user, secure, before[f.name := AsPipelineText(ValueOf(f, user))])
  {
    hide IsEmpty, ValueOf, AsPipelineText, DistinctNames;
    DistinctPrefix(fields);
    assert fields[|fields| - 1] in fields;
    assert fields == fields[..|fields| - 1] + [fields[|fields| - 1]];
  }

  lemma {:induction false} NoneMore(
    fields: seq<FieldSpec>, user: map<string, Value>, secure: bool, before: map<string, string>)
    requires fields != []
    requires var f := fields[|fields| - 1];
             !(f.bindTo == PipelineVar && f.secure == secure && !IsEmpty(ValueOf(f, user)))
    requires StandsFor(fields[..|fields| - 1], user, secure, before)
    ensures StandsFor(fields, user, secure, before)
  {
    hide IsEmpty, ValueOf, AsPipelineText;
    assert fields == fields[..|fields| - 1] + [fields[|fields| - 1]];
  }

  lemma {:induction false} NeverBoth(fields: seq<FieldSpec>, user: map<string, Value>, plain: map<string, string>,
                                     secure: map<string, string>)
    requires DistinctNames(fields) && StandsFor(fields, user, false, plain) && StandsFor(fields, user, true, secure)
    ensures plain.Keys !! secure.Keys
  {
    hide IsEmpty, ValueOf, AsPipelineText;
    assert forall name | name in plain && name in secure :: false;
  }

  /** The text of some variables is read back as they were exactly if their names and values are good. */
  lemma {:induction false} VariablesReadBack(vars: map<string, string>)
    ensures Parse(VariableText(vars)) == vars <==> GoodEntries(vars)
  {
    hide GoodName, GoodValue;
    if vars == map[] {
      assert Lines.Blank("");
    } else {
      var keys := Text.Sorted(vars.Keys);
      assert forall k :: k in keys <==> k in vars;
      var some :| some in vars;
      assert some in keys;
      TextRoundTrip(keys, vars);
    }
  }

  /**
   * The two variable texts of a payload stand for exactly the fields bound to pipeline variables, none in both, and
   * each is read back by a Job as those variables exactly if their names and values are good.
   */
  lemma {:induction false} PayloadVariables(specs: seq<FieldSpec>, user: map<string, Value>, matches: Matcher)
    returns (plain: map<string, string>, secure: map<string, string>)
    requires Build(specs, user, matches).Ok?
    ensures var payload := Build(specs, user, matches).value;
            payload.pipelineVars == VariableText(plain) && payload.pipelineVarsSecure == VariableText(secure)
    ensures StandsFor(Table(specs), user, false, plain) && StandsFor(Table(specs), user, true, secure)
    ensures plain.Keys !! secure.Keys
    ensures Parse(VariableText(plain)) == plain <==> GoodEntries(plain)
    ensures Parse(VariableText(secure)) == secure <==> GoodEntries(secure)
  {
    hide StateOf, IsEmpty, IsValid, Table, Resolved, States, Collect, Singleton, ValueOf, StandsFor, Parse,
         VariableText,
         GoodEntries, AsBool, Shown;
    var fields := Table(specs);
    var values := Resolved(fields, user);
    ResolvedAt(fields, user);
    StatesAt(fields, values);
    var states := States(fields, values).value;
    CollectedAt(fields, states, values, matches);
    var submitted := Collect(fields, states, values, matches).value;
    plain, secure := Variables(fields, submitted, false), Variables(fields, submitted, true);
    VariablesAt(fields, user, submitted, false);
    VariablesAt(fields, user, submitted, true);
    NeverBoth(fields, user, plain, secure);
    VariablesReadBack(plain);
    VariablesReadBack(secure);
  }
}
