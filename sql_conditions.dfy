/**
 * Condition builder: `helperConditionList` and `helperWhere`
 * (include/php/classes/Database.php:403-468).
 */
module SqlConditions {
  import opened Wrappers
  import opened PhpStrings
  import opened SqlValues

  /**
   * One condition entry, by its number of elements: one (a raw SQL fragment),
   * two (attribute, value), three (attribute, operator, value), or any other
   * number, which the builder skips.
   */
  datatype Condition =
    | Fragment(sql: string)
    | Equals(attribute: string, value: Value)
    | Compare(attribute: string, operator: string, value: Value)
    | Unsupported

  /**
   * The `$conditions` argument: either one flat condition (an array whose
   * first element is not an array) or an array of conditions.
   */
  datatype ConditionInput = Flat(condition: Condition) | Nested(conditions: seq<Condition>)

  /** The entries the builder iterates over: a flat condition is wrapped as a list of one. */
  function Entries(input: ConditionInput): seq<Condition>
  {
    match input
    case Flat(c) => [c]
    case Nested(cs) => cs
  }

  /** `count($conditions) === 0`: only an empty array; a flat condition has at least one element. */
  predicate IsEmptyInput(input: ConditionInput)
  {
    input.Nested? && input.conditions == []
  }

  /** The separator: upper-cased, AND and OR get a leading space, and every connector a trailing one. */
  function ConnectorSql(connector: string): string
  {
    var c := Upper(connector);
    (if c == "AND" || c == "OR" then " " + c else c) + " "
  }

  /** The fragment of one entry; None for an entry the builder skips. */
  function ConditionSql(esc: Escape, c: Condition): Option<string>
  {
    match c
    case Fragment(sql) => Some(sql)
    case Equals(a, v) => Some("`" + a + "` = " + ValueSql(esc, v))
    case Compare(a, op, v) => Some("`" + a + "` " + Upper(op) + " " + ValueSql(esc, v))
    case Unsupported => None
  }

  /**
   * The fragment of one entry as the source computes it: a one-element entry
   * is pushed as the array itself, which implode turns into the text "Array".
   */
  function ConditionSqlAsWritten(esc: Escape, c: Condition): Option<string>
  {
    match c
    case Fragment(_) => Some("Array")
    case _ => ConditionSql(esc, c)
  }

  /** The fragments of the entries, in order, skipping the unsupported ones. */
  function Fragments(esc: Escape, cs: seq<Condition>): seq<string>
  {
    if cs == [] then []
    else
      var rest := Fragments(esc, cs[1..]);
      match ConditionSql(esc, cs[0])
      case Some(f) => [f] + rest
      case None => rest
  }

  function ConditionListSql(esc: Escape, input: ConditionInput, connector: string): string
  {
    Join(Fragments(esc, Entries(input)), ConnectorSql(connector))
  }

  function WhereSql(esc: Escape, input: ConditionInput, connector: string): string
  {
    if IsEmptyInput(input) then "" else " WHERE " + ConditionListSql(esc, input, connector)
  }

  /** helperConditionList */
  method HelperConditionList(esc: Escape, input: ConditionInput, connector: string) returns (sql: string)
    ensures sql == ConditionListSql(esc, input, connector)
  {
    var conditions := if input.Flat? then [input.condition] else input.conditions;
    var upper := Upper(connector);
    var separator := if upper == "AND" || upper == "OR" then " " + upper else upper;
    var values: seq<string> := [];
    for k := 0 to |conditions|
      invariant values == Fragments(esc, conditions[..k])
    {
      FragmentsStep(esc, conditions, k);
      match conditions[k]
      case Fragment(raw) =>
        values := values + [raw];
      case Equals(a, v) =>
        var rendered := HelperValue(esc, v);
        values := values + ["`" + a + "` = " + rendered];
      case Compare(a, op, v) =>
        var rendered := HelperValue(esc, v);
        values := values + ["`" + a + "` " + Upper(op) + " " + rendered];
      case Unsupported =>
    }
    assert conditions[..|conditions|] == conditions == Entries(input);
    assert separator + " " == ConnectorSql(connector);
    sql := Join(values, separator + " ");
  }

  /** helperWhere */
  method HelperWhere(esc: Escape, input: ConditionInput, connector: string) returns (sql: string)
    ensures sql == WhereSql(esc, input, connector)
  {
    if input.Flat? || |input.conditions| > 0 {
      var list := HelperConditionList(esc, input, connector);
      return " WHERE " + list;
    }
    return "";
  }

  /** The fragments of a concatenation are the concatenated fragments. */
  lemma {:induction false} FragmentsConcat(esc: Escape, a: seq<Condition>, b: seq<Condition>)
    ensures Fragments(esc, a + b) == Fragments(esc, a) + Fragments(esc, b)
  {
    if a == [] {
      assert a + b == b;
    } else {
      assert (a + b)[0] == a[0];
      assert (a + b)[1..] == a[1..] + b;
      FragmentsConcat(esc, a[1..], b);
    }
  }

  lemma FragmentsStep(esc: Escape, cs: seq<Condition>, k: nat)
    requires k < |cs|
    ensures Fragments(esc, cs[..k + 1]) == Fragments(esc, cs[..k]) + Fragments(esc, [cs[k]])
    ensures Fragments(esc, [cs[k]]) == if cs[k].Unsupported? then [] else [ConditionSql(esc, cs[k]).value]
  {
    assert cs[..k + 1] == cs[..k] + [cs[k]];
    FragmentsConcat(esc, cs[..k], [cs[k]]);
    FragmentsSingle(esc, cs[k]);
  }

  lemma FragmentsSingle(esc: Escape, c: Condition)
    ensures Fragments(esc, [c]) == if c.Unsupported? then [] else [ConditionSql(esc, c).value]
  {
    assert [c][1..] == [];
  }

  /** An entry of unsupported arity contributes nothing, wherever it stands. */
  lemma UnsupportedDropped(esc: Escape, a: seq<Condition>, b: seq<Condition>)
    ensures Fragments(esc, a + [Unsupported] + b) == Fragments(esc, a + b)
  {
    FragmentsConcat(esc, a + [Unsupported], b);
    FragmentsConcat(esc, a, [Unsupported]);
    FragmentsConcat(esc, a, b);
  }

  /** One fragment per supported entry, in input order. */
  lemma {:induction false} FragmentsAllSupported(esc: Escape, cs: seq<Condition>)
    requires forall j :: 0 <= j < |cs| ==> !cs[j].Unsupported?
    ensures |Fragments(esc, cs)| == |cs|
    ensures forall j :: 0 <= j < |cs| ==> Some(Fragments(esc, cs)[j]) == ConditionSql(esc, cs[j])
  {
    if cs != [] {
      FragmentsAllSupported(esc, cs[1..]);
    }
  }

  /** A WHERE clause is emitted exactly when the input is not an empty array. */
  lemma WhereEmptyIff(esc: Escape, input: ConditionInput, connector: string)
    ensures WhereSql(esc, input, connector) == "" <==> IsEmptyInput(input)
    ensures !IsEmptyInput(input) ==>
      WhereSql(esc, input, connector) == " WHERE " + ConditionListSql(esc, input, connector)
  {
    if !IsEmptyInput(input) {
      assert |WhereSql(esc, input, connector)| >= 7;
    }
  }

  /** A flat condition is treated as a list holding just it. */
  lemma FlatIsSingleton(esc: Escape, c: Condition, connector: string)
    ensures ConditionListSql(esc, Flat(c), connector) == ConditionListSql(esc, Nested([c]), connector)
    ensures ConditionSql(esc, c).Some? ==> ConditionListSql(esc, Flat(c), connector) == ConditionSql(esc, c).value
  {
    FragmentsSingle(esc, c);
  }

  /** AND and OR, in any case, join with a space on both sides; any other connector only gets a space after it. */
  lemma ConnectorCases(connector: string)
    ensures Upper(connector) == "AND" ==> ConnectorSql(connector) == " AND "
    ensures Upper(connector) == "OR" ==> ConnectorSql(connector) == " OR "
    ensures Upper(connector) != "AND" && Upper(connector) != "OR" ==> ConnectorSql(connector) == Upper(connector) + " "
    ensures ConnectorSql(",") == ", " && ConnectorSql("and") == " AND " && ConnectorSql("or") == " OR "
  {
    assert Upper(",") == ",";
    assert Upper("and") == "AND";
    assert Upper("or") == "OR";
  }

  /** Two supported conditions are rendered in order around the connector. */
  lemma TwoConditions(esc: Escape, c1: Condition, c2: Condition, connector: string)
    requires !c1.Unsupported? && !c2.Unsupported?
    ensures ConditionListSql(esc, Nested([c1, c2]), connector)
      == ConditionSql(esc, c1).value + ConnectorSql(connector) + ConditionSql(esc, c2).value
  {
    assert [c1, c2] == [c1] + [c2];
    FragmentsConcat(esc, [c1], [c2]);
    FragmentsSingle(esc, c1);
    FragmentsSingle(esc, c2);
    var f1, f2 := ConditionSql(esc, c1).value, ConditionSql(esc, c2).value;
    assert Fragments(esc, [c1, c2]) == [f1, f2];
    assert Entries(Nested([c1, c2])) == [c1, c2];
    assert [f1, f2][1..] == [f2];
    assert Join([f1, f2], ConnectorSql(connector)) == f1 + ConnectorSql(connector) + f2;
  }

  /** `attr` IS NULL: the operator is upper-cased and a null value renders unquoted. */
  lemma IsNullExample(esc: Escape)
    ensures ConditionListSql(esc, Flat(Compare("attr", "is", Null)), "AND") == "`attr` IS NULL"
    ensures ConditionListSql(esc, Flat(Compare("attr", "IS NOT", Null)), "AND") == "`attr` IS NOT NULL"
  {
    assert Upper("is") == "IS";
    UpperFixed("IS NOT");
    assert "`" + "attr" + "` " + "IS" + " " + "NULL" == "`attr` IS NULL";
    assert "`" + "attr" + "` " + "IS NOT" + " " + "NULL" == "`attr` IS NOT NULL";
    FlatIsSingleton(esc, Compare("attr", "is", Null), "AND");
    FlatIsSingleton(esc, Compare("attr", "IS NOT", Null), "AND");
  }

  /** The source loses a raw fragment: it renders as "Array". */
  lemma RawFragmentAsWritten(esc: Escape)
    ensures ConditionSqlAsWritten(esc, Fragment("`attr` = '3'")) == Some("Array")
    ensures ConditionSqlAsWritten(esc, Fragment("`attr` = '3'")) != Some("`attr` = '3'")
  {
  }

  /** A raw fragment is inserted as it is. */
  lemma RawFragmentVerbatim(esc: Escape, raw: string, connector: string)
    ensures ConditionListSql(esc, Nested([Fragment(raw)]), connector) == raw
    ensures WhereSql(esc, Flat(Fragment(raw)), connector) == " WHERE " + raw
  {
    FragmentsSingle(esc, Fragment(raw));
  }
}
