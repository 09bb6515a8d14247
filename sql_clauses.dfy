/**
 * Clause composer: `helperOrderBy` and `helperLimit`
 * (include/php/classes/Database.php:470-523).
 */
module SqlClauses {
  import opened Wrappers
  import opened PhpStrings
  import opened SqlAttributes

  /**
   * One entry of the `$orderBy` array: an integer key with a column name as
   * value, or a column name as key with a direction as value.
   */
  datatype OrderEntry = Column(column: string) | Directed(column: string, direction: string)

  /** The attribute-list entry an order-by entry becomes: [val] or [key, strtoupper(val)]. */
  function OrderAttr(e: OrderEntry): Attr
  {
    match e
    case Column(n) => Path([n])
    case Directed(c, d) => Path([c, Upper(d)])
  }

  function OrderAttrs(entries: seq<OrderEntry>): seq<Attr>
  {
    seq(|entries|, j requires 0 <= j < |entries| => OrderAttr(entries[j]))
  }

  /** The ORDER BY clause; `None` stands for a null argument. */
  function OrderBySql(orderBy: Option<seq<OrderEntry>>): string
  {
    if orderBy.None? || orderBy.value == [] then ""
    else " ORDER BY " + AttributeListSql(OrderAttrs(orderBy.value))
  }

  /** helperOrderBy */
  method HelperOrderBy(orderBy: Option<seq<OrderEntry>>) returns (sql: string)
    ensures sql == OrderBySql(orderBy)
  {
    if orderBy.None? || |orderBy.value| == 0 {
      return "";
    }
    var entries := orderBy.value;
    var values: seq<Attr> := [];
    for k := 0 to |entries|
      invariant |values| == k
      invariant forall j :: 0 <= j < k ==> values[j] == OrderAttr(entries[j])
    {
      match entries[k]
      case Column(n) =>
        values := values + [Path([n])];
      case Directed(c, d) =>
        values := values + [Path([c, Upper(d)])];
    }
    assert values == OrderAttrs(entries);
    var list := HelperAttributeList(values);
    sql := " ORDER BY " + list;
  }

  /** A scalar element of a two-element limit array, as PHP's string conversion shows it. */
  datatype Scalar = Number(n: int) | Text(s: string)

  function ScalarText(x: Scalar): string
  {
    match x
    case Number(n) => IntToString(n)
    case Text(s) => s
  }

  /** The `$limit` argument: an int, a string, or an array. */
  datatype Limit = Count(n: int) | Raw(text: string) | Pair(items: seq<Scalar>)

  /** helperLimit */
  function LimitSql(limit: Limit): (r: string)
    ensures r == "" || (|r| >= 7 && r[..7] == " LIMIT ")
  {
    var text := match limit
      case Pair(items) => if |items| == 2 then Some(ScalarText(items[0]) + "," + ScalarText(items[1])) else None
      case Raw(s) => Some(s)
      case Count(n) => if n > 0 then Some(IntToString(n)) else None;
    if text.Some? then " LIMIT " + text.value else ""
  }

  /** No ORDER BY clause exactly for null or an empty array. */
  lemma OrderByEmptyIff(orderBy: Option<seq<OrderEntry>>)
    ensures OrderBySql(orderBy) == "" <==> orderBy.None? || orderBy.value == []
  {
    if !(orderBy.None? || orderBy.value == []) {
      assert |OrderBySql(orderBy)| >= 10;
    }
  }

  lemma SingleColumnPath(n: string)
    requires !IsKeyword(n)
    ensures EntrySql(Path([n])) == Quote(n)
  {
    assert [n][1..] == [];
    assert Tokenize([n]) == [Plain(n)];
    assert [Plain(n)][1..] == [];
    assert PiecesSql([Plain(n)]) == [Quote(n)];
  }

  lemma DirectedPath(c: string, d: string)
    requires !IsKeyword(c) && IsKeyword(d)
    ensures EntrySql(Path([c, d])) == Quote(c) + " " + d
  {
    assert [c, d][1..] == [d] && [d][1..] == [];
    assert Tokenize([d]) == [Keyword(d)];
    assert Tokenize([c, d]) == [Plain(c)] + Tokenize([d]);
    var ps := [Plain(c), Keyword(d)];
    assert ps[1..] == [Keyword(d)] && ps[1..][1..] == [];
    assert PiecesSql(ps[1..]) == [d];
    assert PiecesSql(ps) == [Quote(c), d];
    assert [Quote(c), d][1..] == [d];
    assert Join([Quote(c), d], " ") == Quote(c) + " " + d;
  }

  /** How an order-by entry reads when its column is a plain name and its direction a keyword. */
  function ExpectedEntrySql(e: OrderEntry): string
  {
    match e
    case Column(n) => Quote(n)
    case Directed(c, d) => Quote(c) + " " + Upper(d)
  }

  /**
   * The entries keep their order; a column entry is quoted, and a directed
   * entry is the quoted column followed by the upper-cased direction.
   */
  lemma OrderByEntries(entries: seq<OrderEntry>)
    requires entries != []
    requires forall j :: 0 <= j < |entries| ==> !IsKeyword(entries[j].column)
    requires forall j :: 0 <= j < |entries| && entries[j].Directed? ==> IsKeyword(Upper(entries[j].direction))
    ensures OrderBySql(Some(entries))
      == " ORDER BY " + Join(seq(|entries|, j requires 0 <= j < |entries| => ExpectedEntrySql(entries[j])), ", ")
  {
    var attrs := OrderAttrs(entries);
    forall j | 0 <= j < |entries|
      ensures EntriesSql(attrs)[j] == ExpectedEntrySql(entries[j])
    {
      match entries[j]
      case Column(n) => SingleColumnPath(n);
      case Directed(c, d) => DirectedPath(c, Upper(d));
    }
    assert EntriesSql(attrs) == seq(|entries|, j requires 0 <= j < |entries| => ExpectedEntrySql(entries[j]));
  }

  /** A direction that is not a keyword is taken as a second identifier segment. */
  lemma NonKeywordDirection(c: string, d: string)
    requires !IsKeyword(c) && !IsKeyword(Upper(d))
    ensures OrderBySql(Some([Directed(c, d)])) == " ORDER BY " + Quote(c) + "." + Quote(Upper(d))
  {
    KeywordCaseInsensitive(d);
    var segs := [c, Upper(d)];
    assert segs[2..] == [];
    assert Tokenize(segs) == [Qualified(c, Upper(d))];
    assert PiecesSql([Qualified(c, Upper(d))]) == [Quote(c) + "." + Quote(Upper(d))];
    assert OrderAttrs([Directed(c, d)]) == [Path(segs)];
    assert EntriesSql([Path(segs)]) == [Quote(c) + "." + Quote(Upper(d))];
  }

  /** Two directed entries render in order, comma-separated. */
  lemma TwoDirected(c1: string, d1: string, c2: string, d2: string)
    requires !IsKeyword(c1) && !IsKeyword(c2) && IsKeyword(Upper(d1)) && IsKeyword(Upper(d2))
    ensures OrderBySql(Some([Directed(c1, d1), Directed(c2, d2)]))
      == " ORDER BY " + ((Quote(c1) + " " + Upper(d1)) + ", " + (Quote(c2) + " " + Upper(d2)))
  {
    var two := [Directed(c1, d1), Directed(c2, d2)];
    OrderByEntries(two);
    var e1, e2 := Quote(c1) + " " + Upper(d1), Quote(c2) + " " + Upper(d2);
    assert seq(|two|, j requires 0 <= j < |two| => ExpectedEntrySql(two[j])) == [e1, e2];
    assert [e1, e2][1..] == [e2];
    assert Join([e1, e2], ", ") == e1 + ", " + e2;
  }

  /** The documented mapping example: directions are upper-cased and follow their column. */
  lemma OrderByDirectedExample()
    ensures OrderBySql(Some([Directed("attr1", "asc"), Directed("attr2", "desc")]))
      == " ORDER BY `attr1` ASC, `attr2` DESC"
  {
    NotKeywordBySize("attr1");
    NotKeywordBySize("attr2");
    assert Upper("asc") == "ASC" && Upper("desc") == "DESC";
    assert Upper("ASC") == "ASC" && Upper("DESC") == "DESC";
    TwoDirected("attr1", "asc", "attr2", "desc");
    DirectedExampleText();
  }

  lemma DirectedExampleText()
    ensures " ORDER BY " + ((Quote("attr1") + " " + Upper("asc")) + ", " + (Quote("attr2") + " " + Upper("desc")))
      == " ORDER BY `attr1` ASC, `attr2` DESC"
  {
    EntryText("attr1", "asc", "ASC");
    EntryText("attr2", "desc", "DESC");
    assert " ORDER BY " + ("`attr1` ASC" + ", " + "`attr2` DESC") == " ORDER BY `attr1` ASC, `attr2` DESC";
  }

  lemma EntryText(c: string, d: string, u: string)
    requires Upper(d) == u
    ensures Quote(c) + " " + Upper(d) == "`" + c + "` " + u
  {
  }

  /** A plain column list renders without a direction: no ASC is added. */
  lemma OrderByColumnExample()
    ensures OrderBySql(None) == "" && OrderBySql(Some([])) == ""
    ensures OrderBySql(Some([Column("attr1")])) == " ORDER BY `attr1`"
  {
    NotKeywordBySize("attr1");
    OrderByEntries([Column("attr1")]);
    assert "`" + "attr1" + "`" == "`attr1`";
    assert seq(1, j requires 0 <= j < 1 => ExpectedEntrySql([Column("attr1")][j])) == ["`attr1`"];
  }

  /** No LIMIT clause exactly for a non-positive int or an array not of two elements. */
  lemma LimitEmptyIff(limit: Limit)
    ensures LimitSql(limit) == "" <==> (limit.Count? && limit.n <= 0) || (limit.Pair? && |limit.items| != 2)
    ensures limit.Raw? ==> LimitSql(limit) == " LIMIT " + limit.text
    ensures limit.Count? && limit.n > 0 ==> LimitSql(limit) == " LIMIT " + IntToString(limit.n)
    ensures limit.Pair? && |limit.items| == 2 ==>
      LimitSql(limit) == " LIMIT " + ScalarText(limit.items[0]) + "," + ScalarText(limit.items[1])
  {
    if LimitSql(limit) != "" {
      assert |LimitSql(limit)| >= 7;
    }
  }

  /** The documented examples, and the empty string, which still yields a clause. */
  lemma LimitExamples()
    ensures LimitSql(Count(0)) == ""
    ensures LimitSql(Count(3)) == " LIMIT 3"
    ensures LimitSql(Pair([Number(3), Number(4)])) == " LIMIT 3,4"
    ensures LimitSql(Raw("")) == " LIMIT "
  {
    assert IntToString(3) == "3" && IntToString(4) == "4";
    assert " LIMIT " + "3" == " LIMIT 3";
    assert " LIMIT " + ("3" + "," + "4") == " LIMIT 3,4";
  }
}
