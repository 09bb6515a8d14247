/**
 * Identifier/attribute formatter: `isKeyword` and `helperAttributeList`
 * (include/php/classes/Database.php:314-361).
 */
module SqlAttributes {
  import opened PhpStrings

  /** AS, ASC and DESC, in any letter case. */
  predicate IsKeyword(w: string)
  {
    var u := Upper(w);
    u == "AS" || u == "ASC" || u == "DESC"
  }

  /**
   * One entry of an attribute list: a string is raw SQL emitted as it is,
   * an array is a sequence of segments that the scan below quotes.
   */
  datatype Attr = Verbatim(text: string) | Path(segments: seq<string>)

  /** How the left-to-right scan groups the segments of one entry. */
  datatype Piece = Keyword(word: string) | Qualified(table: string, column: string) | Plain(name: string)

  /**
   * The scan: a keyword is taken alone; a non-keyword followed by a
   * non-keyword is taken together with it; any other non-keyword alone.
   */
  function Tokenize(segs: seq<string>): seq<Piece>
    decreases |segs|
  {
    if segs == [] then []
    else if IsKeyword(segs[0]) then [Keyword(segs[0])] + Tokenize(segs[1..])
    else if |segs| >= 2 && !IsKeyword(segs[1]) then [Qualified(segs[0], segs[1])] + Tokenize(segs[2..])
    else [Plain(segs[0])] + Tokenize(segs[1..])
  }

  function Quote(name: string): string
  {
    "`" + name + "`"
  }

  function PieceSql(p: Piece): string
  {
    match p
    case Keyword(w) => w
    case Qualified(t, c) => Quote(t) + "." + Quote(c)
    case Plain(n) => Quote(n)
  }

  function PiecesSql(ps: seq<Piece>): seq<string>
  {
    if ps == [] then [] else [PieceSql(ps[0])] + PiecesSql(ps[1..])
  }

  /** The SQL text of one attribute entry: its pieces joined by single spaces. */
  function EntrySql(a: Attr): string
  {
    match a
    case Verbatim(text) => text
    case Path(segs) => Join(PiecesSql(Tokenize(segs)), " ")
  }

  function EntriesSql(attrs: seq<Attr>): seq<string>
  {
    seq(|attrs|, j requires 0 <= j < |attrs| => EntrySql(attrs[j]))
  }

  /** The SQL text of an attribute list: the entries joined by ", ". */
  function AttributeListSql(attrs: seq<Attr>): string
  {
    Join(EntriesSql(attrs), ", ")
  }

  /** The segments a sequence of pieces stands for, in order. */
  function Flatten(ps: seq<Piece>): seq<string>
  {
    if ps == [] then []
    else
      var head := match ps[0]
        case Keyword(w) => [w]
        case Qualified(t, c) => [t, c]
        case Plain(n) => [n];
      head + Flatten(ps[1..])
  }

  predicate PieceWellFormed(p: Piece)
  {
    match p
    case Keyword(w) => IsKeyword(w)
    case Qualified(t, c) => !IsKeyword(t) && !IsKeyword(c)
    case Plain(n) => !IsKeyword(n)
  }

  /**
   * A grouping the scan could have produced: every piece is well formed, and
   * a lone non-keyword is followed by a keyword or stands last.
   */
  predicate WellFormed(ps: seq<Piece>)
  {
    && (forall j :: 0 <= j < |ps| ==> PieceWellFormed(ps[j]))
    && (forall j :: 0 <= j < |ps| - 1 && ps[j].Plain? ==> ps[j + 1].Keyword?)
  }

  /** helperAttributeList: one rendered entry per attribute, then imploded. */
  method HelperAttributeList(attributes: seq<Attr>) returns (sql: string)
    ensures sql == AttributeListSql(attributes)
  {
    var sqlAttributes: seq<string> := [];
    for k := 0 to |attributes|
      invariant |sqlAttributes| == k
      invariant forall j :: 0 <= j < k ==> sqlAttributes[j] == EntrySql(attributes[j])
    {
      var attribute := attributes[k];
      if attribute.Verbatim? {
        sqlAttributes := sqlAttributes + [attribute.text];
      } else {
        var sqlPieces := ScanSegments(attribute.segments);
        sqlAttributes := sqlAttributes + [Join(sqlPieces, " ")];
      }
    }
    assert sqlAttributes == EntriesSql(attributes);
    sql := Join(sqlAttributes, ", ");
  }

  /** The inner index loop of helperAttributeList, which skips the segment it has just used. */
  method ScanSegments(segs: seq<string>) returns (sqlPieces: seq<string>)
    ensures sqlPieces == PiecesSql(Tokenize(segs))
  {
    sqlPieces := [];
    var i := 0;
    while i < |segs|
      invariant 0 <= i <= |segs|
      invariant sqlPieces + PiecesSql(Tokenize(segs[i..])) == PiecesSql(Tokenize(segs))
    {
      ghost var before := sqlPieces;
      ghost var from := i;
      TokenizeStep(segs, i);
      if IsKeyword(segs[i]) {
        sqlPieces := sqlPieces + [segs[i]];
      } else if i + 1 < |segs| && !IsKeyword(segs[i + 1]) {
        sqlPieces := sqlPieces + [Quote(segs[i]) + "." + Quote(segs[i + 1])];
        i := i + 1;
      } else {
        sqlPieces := sqlPieces + [Quote(segs[i])];
      }
      i := i + 1;
      ScanAppend(before, sqlPieces[|before|..], PiecesSql(Tokenize(segs[from..])), PiecesSql(Tokenize(segs[i..])));
    }
    assert segs[i..] == [];
  }

  /** Moving one piece from the rest of the scan to the emitted prefix keeps the whole. */
  lemma ScanAppend(before: seq<string>, piece: seq<string>, rest: seq<string>, after: seq<string>)
    requires rest == piece + after
    ensures (before + piece) + after == before + rest
  {
  }

  /** One step of the scan, seen from position i. */
  lemma TokenizeStep(segs: seq<string>, i: nat)
    requires i < |segs|
    ensures IsKeyword(segs[i]) ==>
      PiecesSql(Tokenize(segs[i..])) == [segs[i]] + PiecesSql(Tokenize(segs[i + 1..]))
    ensures !IsKeyword(segs[i]) && i + 1 < |segs| && !IsKeyword(segs[i + 1]) ==>
      PiecesSql(Tokenize(segs[i..])) == [Quote(segs[i]) + "." + Quote(segs[i + 1])] + PiecesSql(Tokenize(segs[i + 2..]))
    ensures !IsKeyword(segs[i]) && !(i + 1 < |segs| && !IsKeyword(segs[i + 1])) ==>
      PiecesSql(Tokenize(segs[i..])) == [Quote(segs[i])] + PiecesSql(Tokenize(segs[i + 1..]))
  {
    assert segs[i..][1..] == segs[i + 1..];
    if i + 1 < |segs| {
      assert segs[i..][2..] == segs[i + 2..];
    }
    var ps := Tokenize(segs[i..]);
    assert PiecesSql(ps) == [PieceSql(ps[0])] + PiecesSql(ps[1..]);
  }

  /** Every segment of the entry is used exactly once, in order. */
  lemma {:induction false} TokenizeFlatten(segs: seq<string>)
    ensures Flatten(Tokenize(segs)) == segs
    decreases |segs|
  {
    if segs != [] {
      if IsKeyword(segs[0]) {
        TokenizeFlatten(segs[1..]);
        assert [segs[0]] + segs[1..] == segs;
      } else if |segs| >= 2 && !IsKeyword(segs[1]) {
        TokenizeFlatten(segs[2..]);
        assert [segs[0], segs[1]] + segs[2..] == segs;
      } else {
        TokenizeFlatten(segs[1..]);
        assert [segs[0]] + segs[1..] == segs;
      }
    }
  }

  /** The scan's grouping is well formed. */
  lemma {:induction false} TokenizeWellFormed(segs: seq<string>)
    ensures WellFormed(Tokenize(segs))
    decreases |segs|
  {
    if segs != [] {
      var rest := if IsKeyword(segs[0]) || |segs| < 2 || IsKeyword(segs[1]) then segs[1..] else segs[2..];
      TokenizeWellFormed(rest);
      var ps := Tokenize(segs);
      assert ps[1..] == Tokenize(rest);
      if ps[0].Plain? && |ps| > 1 {
        assert |segs| >= 2 && IsKeyword(segs[1]);
        assert Tokenize(rest)[0] == Keyword(segs[1]);
      }
      forall j | 0 <= j < |ps| - 1 && ps[j].Plain?
        ensures ps[j + 1].Keyword?
      {
        if j > 0 {
          assert ps[j] == Tokenize(rest)[j - 1];
        }
      }
    }
  }

  lemma {:induction false} WellFormedTail(ps: seq<Piece>)
    requires ps != [] && WellFormed(ps)
    ensures WellFormed(ps[1..])
  {
    forall j | 0 <= j < |ps[1..]| - 1 && ps[1..][j].Plain?
      ensures ps[1..][j + 1].Keyword?
    {
      assert ps[j + 1].Plain?;
    }
  }

  /** The scan's grouping is the only well-formed grouping of the segments. */
  lemma {:induction false} TokenizeUnique(ps: seq<Piece>, segs: seq<string>)
    requires WellFormed(ps) && Flatten(ps) == segs
    ensures ps == Tokenize(segs)
    decreases |ps|
  {
    if ps != [] {
      WellFormedTail(ps);
      assert PieceWellFormed(ps[0]);
      var rest := Flatten(ps[1..]);
      match ps[0]
      case Keyword(w) =>
        assert segs == [w] + rest;
        assert segs[1..] == rest;
        TokenizeUnique(ps[1..], rest);
      case Qualified(t, c) =>
        assert segs == [t, c] + rest;
        assert segs[2..] == rest;
        TokenizeUnique(ps[1..], rest);
      case Plain(n) =>
        assert segs == [n] + rest;
        assert segs[1..] == rest;
        if |ps| > 1 {
          assert ps[1].Keyword?;
          assert PieceWellFormed(ps[1]);
          assert rest == [ps[1].word] + Flatten(ps[2..]);
          assert segs[1] == ps[1].word;
        }
        TokenizeUnique(ps[1..], rest);
    }
  }

  /** A qualified column renders as `table`.`column`. */
  lemma QualifiedExample()
    ensures AttributeListSql([Path(["t", "c"])]) == "`t`.`c`"
  {
    NotKeywordBySize("t");
    NotKeywordBySize("c");
    assert Tokenize(["t", "c"]) == [Qualified("t", "c")];
  }

  /** An alias after AS is quoted too: it is a non-keyword with no successor. */
  lemma AliasExample()
    ensures AttributeListSql([Path(["c", "AS", "alias"])]) == "`c` AS `alias`"
  {
    NotKeywordBySize("c");
    NotKeywordBySize("alias");
    assert Upper("AS") == "AS";
    AliasShape("c", "AS", "alias");
    var e := EntrySql(Path(["c", "AS", "alias"]));
    assert EntriesSql([Path(["c", "AS", "alias"])]) == [e];
    assert Join([e], ", ") == e;
    assert Quote("c") + " " + "AS" + " " + Quote("alias") == "`c` AS `alias`";
  }

  /** A column, a keyword and a name render as the quoted column, the keyword and the quoted name. */
  lemma AliasShape(c: string, k: string, a: string)
    requires !IsKeyword(c) && IsKeyword(k) && !IsKeyword(a)
    ensures EntrySql(Path([c, k, a])) == Quote(c) + " " + k + " " + Quote(a)
  {
    AliasTokens(c, k, a);
    AliasPieces(c, k, a);
  }

  lemma AliasTokens(c: string, k: string, a: string)
    requires !IsKeyword(c) && IsKeyword(k) && !IsKeyword(a)
    ensures Tokenize([c, k, a]) == [Plain(c), Keyword(k), Plain(a)]
  {
    assert [a][1..] == [];
    assert Tokenize([a]) == [Plain(a)];
    assert [k, a][1..] == [a];
    assert Tokenize([k, a]) == [Keyword(k)] + Tokenize([a]);
    assert [c, k, a][1..] == [k, a];
    assert Tokenize([c, k, a]) == [Plain(c)] + Tokenize([k, a]);
  }

  lemma AliasPieces(c: string, k: string, a: string)
    ensures Join(PiecesSql([Plain(c), Keyword(k), Plain(a)]), " ") == Quote(c) + " " + k + " " + Quote(a)
  {
    var ps := [Plain(c), Keyword(k), Plain(a)];
    assert ps[1..] == [Keyword(k), Plain(a)] && ps[1..][1..] == [Plain(a)] && ps[1..][1..][1..] == [];
    assert PiecesSql([Plain(a)]) == [Quote(a)];
    assert PiecesSql([Keyword(k), Plain(a)]) == [k] + [Quote(a)];
    assert PiecesSql(ps) == [Quote(c)] + [k, Quote(a)];
    var strs := [Quote(c), k, Quote(a)];
    assert [Quote(c)] + [k, Quote(a)] == strs;
    assert strs[1..] == [k, Quote(a)] && strs[1..][1..] == [Quote(a)];
    assert Join([k, Quote(a)], " ") == k + " " + Quote(a);
    assert Join(strs, " ") == Quote(c) + " " + (k + " " + Quote(a));
  }

  /** Keywords have two to four letters. */
  lemma NotKeywordBySize(w: string)
    requires |w| < 2 || |w| > 4
    ensures !IsKeyword(w)
  {
    UpperLength(w);
  }

  /** Keyword detection ignores letter case. */
  lemma KeywordCaseInsensitive(w: string)
    ensures IsKeyword(w) <==> IsKeyword(Upper(w))
  {
    UpperIdempotent(w);
  }

  /** A list of raw strings is emitted verbatim, comma-separated. */
  lemma VerbatimList(names: seq<string>)
    ensures AttributeListSql(seq(|names|, j requires 0 <= j < |names| => Verbatim(names[j]))) == Join(names, ", ")
  {
    var attrs := seq(|names|, j requires 0 <= j < |names| => Verbatim(names[j]));
    assert EntriesSql(attrs) == names;
  }
}
