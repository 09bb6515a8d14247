/**
 * Value formatter of the query builder: `helperValue` and `helperValueList`
 * (include/php/classes/Database.php:369-401).
 */
module SqlValues {
  import opened PhpStrings

  /** The values a caller hands to the builders: null, a string, an int or a nested list. */
  datatype Value = Null | Str(s: string) | Int(i: int) | List(items: seq<Value>)

  /** The connection's `real_escape_string`, left uninterpreted. */
  type Escape = string -> string

  /** null, or a string that is "NULL" in any letter case. */
  predicate IsNullLiteral(v: Value)
  {
    v.Null? || (v.Str? && Upper(v.s) == "NULL")
  }

  /** The SQL text of one value. */
  function ValueSql(esc: Escape, v: Value): string
    decreases v, 1
  {
    match v
    case Null => "NULL"
    case Str(s) => if Upper(s) == "NULL" then "NULL" else "'" + esc(s) + "'"
    case Int(i) => "'" + esc(IntToString(i)) + "'"
    case List(items) => ValueListSql(esc, items)
  }

  /** The SQL text of a list of values: the items in order, comma-separated, in parentheses. */
  function ValueListSql(esc: Escape, items: seq<Value>): string
    decreases items, 1
  {
    "(" + Join(ItemsSql(esc, items), ", ") + ")"
  }

  function ItemsSql(esc: Escape, items: seq<Value>): seq<string>
    decreases items, 0
  {
    if items == [] then [] else [ValueSql(esc, items[0])] + ItemsSql(esc, items[1..])
  }

  /** helperValue */
  method HelperValue(esc: Escape, v: Value) returns (sql: string)
    ensures sql == ValueSql(esc, v)
    decreases v, 1
  {
    if v.Null? || (v.Str? && Upper(v.s) == "NULL") {
      return "NULL";
    } else if v.List? {
      sql := HelperValueList(esc, v.items);
      return;
    }
    var text := if v.Str? then v.s else IntToString(v.i);
    sql := "'" + esc(text) + "'";
  }

  /** helperValueList: renders every item with helperValue, then implodes. */
  method HelperValueList(esc: Escape, values: seq<Value>) returns (sql: string)
    ensures sql == ValueListSql(esc, values)
    decreases values, 1
  {
    var sqlValues: seq<string> := [];
    for k := 0 to |values|
      invariant |sqlValues| == k
      invariant forall j :: 0 <= j < k ==> sqlValues[j] == ValueSql(esc, values[j])
    {
      var item := HelperValue(esc, values[k]);
      sqlValues := sqlValues + [item];
    }
    ItemsSqlAt(esc, values);
    assert sqlValues == ItemsSql(esc, values);
    sql := "(" + Join(sqlValues, ", ") + ")";
  }

  /** The list rendering has one item per value, in input order. */
  lemma {:induction false} ItemsSqlAt(esc: Escape, items: seq<Value>)
    ensures |ItemsSql(esc, items)| == |items|
    ensures forall j :: 0 <= j < |items| ==> ItemsSql(esc, items)[j] == ValueSql(esc, items[j])
  {
    if items != [] {
      ItemsSqlAt(esc, items[1..]);
    }
  }

  /** A value renders as the bare word NULL exactly when it is null or a case variant of "null". */
  lemma NullRendering(esc: Escape, v: Value)
    ensures ValueSql(esc, v) == "NULL" <==> IsNullLiteral(v)
  {
    match v
    case Null =>
    case Str(s) =>
      if !IsNullLiteral(v) {
        assert ValueSql(esc, v) == "'" + esc(s) + "'";
        assert ValueSql(esc, v)[0] == '\'';
      }
    case Int(i) =>
      assert ValueSql(esc, v) == "'" + esc(IntToString(i)) + "'";
      assert ValueSql(esc, v)[0] == '\'';
    case List(items) =>
      assert ValueSql(esc, v) == "(" + Join(ItemsSql(esc, items), ", ") + ")";
      assert ValueSql(esc, v)[0] == '(';
  }

  /** The four cases of helperValue: NULL, a nested list, an escaped quoted string, an escaped quoted int. */
  lemma ValueSqlShape(esc: Escape, v: Value)
    ensures IsNullLiteral(v) ==> ValueSql(esc, v) == "NULL"
    ensures v.List? ==> ValueSql(esc, v) == "(" + Join(ItemsSql(esc, v.items), ", ") + ")"
    ensures v.Str? && !IsNullLiteral(v) ==> ValueSql(esc, v) == "'" + esc(v.s) + "'"
    ensures v.Int? ==> ValueSql(esc, v) == "'" + esc(IntToString(v.i)) + "'"
  {
  }

  /** An empty list renders as "()". */
  lemma EmptyListRendering(esc: Escape)
    ensures ValueSql(esc, List([])) == "()"
  {
  }
}
