/**
 * The statement builder of the `/query` handler: a filter record with four
 * optional fields becomes a parameterised SELECT statement whose text holds
 * one `?` placeholder per field that is set, and whose positional parameter
 * list holds the values of those fields, in the fixed order
 * key, value_like, from, to.
 */
module QueryBuilder {
  import opened Wrappers

  /** The request body of `/query` (the Rust struct `SqlQuery`). */
  datatype SqlQuery = SqlQuery(
    key: Option<string>,
    valueLike: Option<string>,
    from: Option<string>,
    to: Option<string>)

  /** The four filter fields, named so that properties can range over them. */
  datatype Field = Key | ValueLike | From | To

  /** A statement text together with its positional parameters. */
  datatype Statement = Statement(text: string, params: seq<string>)

  /** The order in which the handler tests the fields. */
  const FieldOrder: seq<Field> := [Key, ValueLike, From, To]

  /** The statement every query starts from; `1=1` lets each filter be appended with `AND`. */
  const BaseStatement: string := "SELECT " + SelectedColumns + " FROM logs WHERE 1=1"

  /** The columns every query selects, in the order the row projector reads them. */
  const SelectedColumnNames: seq<string> := ["id", "key", "value", "timestamp"]

  /** The selected columns as the statement lists them: "id, key, value, timestamp". */
  const SelectedColumns: string := ColumnList(SelectedColumnNames)

  /** The base statement, spelled out in the pieces it is built from. */
  lemma BaseStatementSpelledOut()
    ensures BaseStatement == "SELECT " + "id, key, value, timestamp" + " FROM logs WHERE 1=1"
  {
    SelectedColumnsSpelledOut();
  }

  lemma SelectedColumnsSpelledOut()
    ensures SelectedColumns == "id, key, value, timestamp"
  {
    assert SelectedColumnNames[1..] == ["key", "value", "timestamp"];
    assert SelectedColumnNames[1..][1..] == ["value", "timestamp"];
    assert SelectedColumnNames[1..][1..][1..] == ["timestamp"];
    assert SelectedColumns == "id" + ", " + "key" + ", " + "value" + ", " + "timestamp";
  }

  /** Column names separated by ", ", as a statement lists them. */
  function ColumnList(names: seq<string>): string
  {
    if |names| == 0 then ""
    else if |names| == 1 then names[0]
    else names[0] + ", " + ColumnList(names[1..])
  }

  function Lookup(q: SqlQuery, field: Field): Option<string>
  {
    match field
    case Key => q.key
    case ValueLike => q.valueLike
    case From => q.from
    case To => q.to
  }

  /** Number of `?` placeholders in a text. */
  function Placeholders(s: string): nat
  {
    multiset(s)['?']
  }

  /** The comparison a field adds, up to its placeholder. */
  function Comparison(field: Field): string
  {
    match field
    case Key => "key = "
    case ValueLike => "value LIKE "
    case From => "timestamp > "
    case To => "timestamp < "
  }

  /**
   * The clause appended for a field: ` AND `, its comparison and the placeholder
   * (" AND key = ?", " AND value LIKE ?", " AND timestamp > ?", " AND timestamp < ?").
   */
  function Clause(field: Field): string
  {
    " AND " + Comparison(field) + "?"
  }

  /** The fields among `fields` that `q` sets, in the order of `fields`. */
  function PresentAmong(q: SqlQuery, fields: seq<Field>): (present: seq<Field>)
    ensures forall field :: field in present <==> field in fields && Lookup(q, field).Some?
    ensures |present| <= |fields|
  {
    if fields == [] then []
    else (if Lookup(q, fields[0]).Some? then [fields[0]] else []) + PresentAmong(q, fields[1..])
  }

  /** The fields `q` sets, in the order the handler tests them. */
  function PresentFields(q: SqlQuery): seq<Field>
  {
    PresentAmong(q, FieldOrder)
  }

  /** The clauses of `fields`, concatenated in order. */
  function ClauseText(fields: seq<Field>): string
  {
    if fields == [] then "" else Clause(fields[0]) + ClauseText(fields[1..])
  }

  /** The values of `fields` in `q`, in order: the positional parameters. */
  function ValuesOf(q: SqlQuery, fields: seq<Field>): (values: seq<string>)
    requires forall field :: field in fields ==> Lookup(q, field).Some?
    ensures |values| == |fields|
  {
    if fields == [] then [] else [Lookup(q, fields[0]).value] + ValuesOf(q, fields[1..])
  }

  /** The statement the handler sends for `q`: one clause and one parameter per field set. */
  function Build(q: SqlQuery): Statement
  {
    var present := PresentFields(q);
    Statement(BaseStatement + ClauseText(present), ValuesOf(q, present))
  }

  /** The statement built once the fields of `fields` have been tested, in order. */
  function BuiltAfter(q: SqlQuery, fields: seq<Field>): Statement
  {
    var present := PresentAmong(q, fields);
    Statement(BaseStatement + ClauseText(present), ValuesOf(q, present))
  }

  /**
   * Builds the statement step by step as the handler does: start from the base
   * text and an empty parameter list, then test the fields in order.
   */
  method BuildStatement(q: SqlQuery) returns (query: string, params: seq<string>)
    ensures Statement(query, params) == Build(q)
  {
    query := BaseStatement;
    params := [];
    assert Statement(query, params) == BuiltAfter(q, []);
    query, params := ApplyFilter(q, [], Key, query, params);
    assert [] + [Key] == [Key];
    query, params := ApplyFilter(q, [Key], ValueLike, query, params);
    assert [Key] + [ValueLike] == [Key, ValueLike];
    query, params := ApplyFilter(q, [Key, ValueLike], From, query, params);
    assert [Key, ValueLike] + [From] == [Key, ValueLike, From];
    query, params := ApplyFilter(q, [Key, ValueLike, From], To, query, params);
    assert [Key, ValueLike, From] + [To] == FieldOrder;
  }

  /**
   * One filter step: when `field` is set, append its clause to the text and push
   * its value onto the parameters; otherwise leave both as they are.
   */
  method ApplyFilter(q: SqlQuery, ghost tested: seq<Field>, field: Field, query: string, params: seq<string>)
    returns (query': string, params': seq<string>)
    requires Statement(query, params) == BuiltAfter(q, tested)
    ensures Statement(query', params') == BuiltAfter(q, tested + [field])
  {
    BuiltAfterSnoc(q, tested, field);
    query', params' := query, params;
    match Lookup(q, field)
    case Some(value) =>
      query' := query + Clause(field);
      params' := params + [value];
    case None =>
  }

  /** Testing one more field extends the statement by that field's clause and value, if it is set. */
  lemma BuiltAfterSnoc(q: SqlQuery, tested: seq<Field>, field: Field)
    ensures Lookup(q, field).None? ==> BuiltAfter(q, tested + [field]) == BuiltAfter(q, tested)
    ensures Lookup(q, field).Some? ==>
      BuiltAfter(q, tested + [field])
      == Statement(BuiltAfter(q, tested).text + Clause(field),
                   BuiltAfter(q, tested).params + [Lookup(q, field).value])
  {
    var done := PresentAmong(q, tested);
    PresentAmongSnoc(q, tested, field);
    if Lookup(q, field).Some? {
      assert PresentAmong(q, tested + [field]) == done + [field];
      ClauseTextSnoc(done, field);
      ValuesOfSnoc(q, done, field);
      assert BaseStatement + (ClauseText(done) + Clause(field))
          == (BaseStatement + ClauseText(done)) + Clause(field);
    } else {
      assert PresentAmong(q, tested + [field]) == done;
    }
  }

  lemma {:induction false} PresentAmongSnoc(q: SqlQuery, fields: seq<Field>, field: Field)
    ensures PresentAmong(q, fields + [field])
         == PresentAmong(q, fields) + (if Lookup(q, field).Some? then [field] else [])
  {
    if fields == [] {
      assert fields + [field] == [field];
    } else {
      assert (fields + [field])[1..] == fields[1..] + [field];
      PresentAmongSnoc(q, fields[1..], field);
    }
  }

  lemma {:induction false} ClauseTextSnoc(fields: seq<Field>, field: Field)
    ensures ClauseText(fields + [field]) == ClauseText(fields) + Clause(field)
  {
    if fields == [] {
      assert fields + [field] == [field];
    } else {
      assert (fields + [field])[1..] == fields[1..] + [field];
      ClauseTextSnoc(fields[1..], field);
    }
  }

  lemma {:induction false} ValuesOfSnoc(q: SqlQuery, fields: seq<Field>, field: Field)
    requires forall f :: f in fields ==> Lookup(q, f).Some?
    requires Lookup(q, field).Some?
    ensures ValuesOf(q, fields + [field]) == ValuesOf(q, fields) + [Lookup(q, field).value]
  {
    if fields == [] {
      assert fields + [field] == [field];
    } else {
      assert (fields + [field])[1..] == fields[1..] + [field];
      ValuesOfSnoc(q, fields[1..], field);
    }
  }

  // ---------------------------------------------------------------------------
  // Properties of the built statement
  // ---------------------------------------------------------------------------

  /** Each clause starts with ` AND ` and carries exactly one placeholder, as its last character. */
  lemma ClauseShape(field: Field)
    ensures |Clause(field)| > 5 && Clause(field)[..5] == " AND "
    ensures Clause(field)[|Clause(field)| - 1] == '?'
    ensures Placeholders(Clause(field)) == 1
  {
    ClauseEnds(field);
    ClauseHasOnePlaceholder(field);
  }

  lemma ClauseEnds(field: Field)
    ensures |Clause(field)| > 5 && Clause(field)[..5] == " AND "
    ensures Clause(field)[|Clause(field)| - 1] == '?'
  {
    assert (" AND " + Comparison(field)) + "?" == " AND " + (Comparison(field) + "?");
  }

  lemma ClauseHasOnePlaceholder(field: Field)
    ensures Placeholders(Clause(field)) == 1
  {
    ComparisonAvoidsQuestionMark(field);
    OnePlaceholderAfter(Comparison(field));
  }

  /** A comparison without `?`, put between ` AND ` and the placeholder, holds one `?`. */
  lemma OnePlaceholderAfter(comparison: string)
    requires '?' !in comparison
    ensures Placeholders(" AND " + comparison + "?") == 1
  {
    NoQuestionMark(comparison);
    NoQuestionMark(" AND ");
    PlaceholdersAdd(" AND ", comparison);
    PlaceholdersAdd(" AND " + comparison, "?");
  }

  /** Placeholders of a concatenation add up. */
  lemma PlaceholdersAdd(a: string, b: string)
    ensures Placeholders(a + b) == Placeholders(a) + Placeholders(b)
  {
    assert multiset(a + b) == multiset(a) + multiset(b);
  }

  lemma NoQuestionMark(s: string)
    requires '?' !in s
    ensures Placeholders(s) == 0
  {
  }

  lemma ComparisonAvoidsQuestionMark(field: Field)
    ensures '?' !in Comparison(field)
  {
  }

  /** The base statement holds no placeholder. */
  lemma BaseHasNoPlaceholder()
    ensures Placeholders(BaseStatement) == 0
  {
    BaseAvoidsQuestionMark();
    NoQuestionMark(BaseStatement);
  }

  lemma BaseAvoidsQuestionMark()
    ensures '?' !in BaseStatement
  {
    assert '?' !in "id" && '?' !in "key" && '?' !in "value" && '?' !in "timestamp";
    ColumnListAvoidsQuestionMark(SelectedColumnNames);
  }

  /** A list of names none of which holds `?` holds no `?` either. */
  lemma {:induction false} ColumnListAvoidsQuestionMark(names: seq<string>)
    requires forall i :: 0 <= i < |names| ==> '?' !in names[i]
    ensures '?' !in ColumnList(names)
  {
    if |names| > 1 {
      ColumnListAvoidsQuestionMark(names[1..]);
      assert '?' !in ", ";
    }
  }

  lemma {:induction false} ClauseTextPlaceholders(fields: seq<Field>)
    ensures Placeholders(ClauseText(fields)) == |fields|
  {
    if fields != [] {
      ClauseShape(fields[0]);
      ClauseTextPlaceholders(fields[1..]);
    }
  }

  /** The statement text holds exactly one placeholder per parameter, and there are at most four. */
  lemma PlaceholdersMatchParams(q: SqlQuery)
    ensures Placeholders(Build(q).text) == |Build(q).params| <= 4
  {
    BaseHasNoPlaceholder();
    ClauseTextPlaceholders(PresentFields(q));
  }

  /** No filter set: the bare base statement with no parameters, and only then. */
  lemma EmptyFilter(q: SqlQuery)
    ensures Build(q) == Statement(BaseStatement, [])
        <==> q.key.None? && q.valueLike.None? && q.from.None? && q.to.None?
    ensures Build(q).params == [] <==> Build(q).text == BaseStatement
  {
  }

  /** Position of a field in the order the handler tests them. */
  function Rank(field: Field): (r: nat)
    ensures r < |FieldOrder| && FieldOrder[r] == field
  {
    match field
    case Key => 0
    case ValueLike => 1
    case From => 2
    case To => 3
  }

  /** The fields come in the order the handler tests them (and so without repetition). */
  ghost predicate InOrder(fields: seq<Field>)
  {
    forall i, j :: 0 <= i < j < |fields| ==> Rank(fields[i]) < Rank(fields[j])
  }

  lemma {:induction false} PresentAmongInOrder(q: SqlQuery, fields: seq<Field>)
    requires InOrder(fields)
    ensures InOrder(PresentAmong(q, fields))
  {
    if fields != [] {
      var rest := PresentAmong(q, fields[1..]);
      PresentAmongInOrder(q, fields[1..]);
      if Lookup(q, fields[0]).Some? {
        var present := [fields[0]] + rest;
        forall i, j | 0 <= i < j < |present| ensures Rank(present[i]) < Rank(present[j]) {
          if i == 0 {
            assert present[j] in fields[1..];
            var k :| 0 <= k < |fields[1..]| && fields[1..][k] == present[j];
            assert fields[k + 1] == present[j];
          }
        }
      }
    }
  }

  /**
   * The parameters are the values of the fields that are set, the i-th parameter
   * belonging to the i-th such field in the order key, value_like, from, to.
   */
  lemma ParamsInFieldOrder(q: SqlQuery)
    ensures var present := PresentFields(q);
      && InOrder(present)
      && (forall field :: field in present <==> Lookup(q, field).Some?)
      && |Build(q).params| == |present|
      && forall i :: 0 <= i < |present| ==> Lookup(q, present[i]) == Some(Build(q).params[i])
  {
    PresentAmongInOrder(q, FieldOrder);
    ValuesOfAt(q, PresentFields(q));
  }

  lemma {:induction false} ValuesOfAt(q: SqlQuery, fields: seq<Field>)
    requires forall field :: field in fields ==> Lookup(q, field).Some?
    ensures forall i :: 0 <= i < |fields| ==> Lookup(q, fields[i]) == Some(ValuesOf(q, fields)[i])
  {
    if fields != [] {
      ValuesOfAt(q, fields[1..]);
      forall i | 0 <= i < |fields| ensures Lookup(q, fields[i]) == Some(ValuesOf(q, fields)[i]) {
        if i > 0 {
          assert fields[i] == fields[1..][i - 1];
        }
      }
    }
  }

  // ---------------------------------------------------------------------------
  // The statement text depends on which fields are set, and on nothing else
  // ---------------------------------------------------------------------------

  /** Two filters set the same fields (whatever their values). */
  predicate SamePresence(q1: SqlQuery, q2: SqlQuery)
  {
    forall field :: Lookup(q1, field).Some? <==> Lookup(q2, field).Some?
  }

  /**
   * Reads back, from a text made of clauses, which of `fields` it has clauses
   * for, expecting them in the order of `fields`; None if the text is not such
   * a sequence of clauses.
   */
  function ParseClauses(text: string, fields: seq<Field>): Option<seq<Field>>
  {
    if fields == [] then
      if text == [] then Some([]) else None
    else if Clause(fields[0]) <= text then
      match ParseClauses(text[|Clause(fields[0])|..], fields[1..])
      case Some(rest) => Some([fields[0]] + rest)
      case None => None
    else
      ParseClauses(text, fields[1..])
  }

  /** Reads back which fields a statement text filters on. */
  function ParsePresence(text: string): Option<seq<Field>>
  {
    if BaseStatement <= text then ParseClauses(text[|BaseStatement|..], FieldOrder) else None
  }

  /** No clause is a prefix of a text that starts with another field's clause. */
  lemma ClauseNotPrefix(f: Field, g: Field, rest: string)
    requires f != g
    ensures !(Clause(f) <= Clause(g) + rest)
  {
    var i := if (f == From && g == To) || (f == To && g == From) then 15 else 5;
    assert Clause(f)[i] != Clause(g)[i];
    assert (Clause(g) + rest)[i] == Clause(g)[i];
  }

  lemma {:induction false} ParseClauseText(q: SqlQuery, fields: seq<Field>)
    requires InOrder(fields)
    ensures ParseClauses(ClauseText(PresentAmong(q, fields)), fields) == Some(PresentAmong(q, fields))
  {
    if fields != [] {
      ParseClauseText(q, fields[1..]);
      if Lookup(q, fields[0]).Some? {
        ParseTakesSetField(q, fields);
      } else {
        ParseSkipsUnsetField(q, fields);
      }
    }
  }

  /** Induction step of ParseClauseText when the first field is set. */
  lemma ParseTakesSetField(q: SqlQuery, fields: seq<Field>)
    requires fields != [] && Lookup(q, fields[0]).Some?
    requires ParseClauses(ClauseText(PresentAmong(q, fields[1..])), fields[1..])
          == Some(PresentAmong(q, fields[1..]))
    ensures ParseClauses(ClauseText(PresentAmong(q, fields)), fields) == Some(PresentAmong(q, fields))
  {
  }

  /** Induction step of ParseClauseText when the first field is not set. */
  lemma ParseSkipsUnsetField(q: SqlQuery, fields: seq<Field>)
    requires InOrder(fields)
    requires fields != [] && Lookup(q, fields[0]).None?
    requires ParseClauses(ClauseText(PresentAmong(q, fields[1..])), fields[1..])
          == Some(PresentAmong(q, fields[1..]))
    ensures ParseClauses(ClauseText(PresentAmong(q, fields)), fields) == Some(PresentAmong(q, fields))
  {
    var first := fields[0];
    var later := PresentAmong(q, fields[1..]);
    var text := ClauseText(later);
    assert PresentAmong(q, fields) == later;
    if later != [] {
      assert later[0] in fields[1..];
      var k :| 0 <= k < |fields[1..]| && fields[1..][k] == later[0];
      assert fields[k + 1] == later[0];
      ClauseNotPrefix(first, later[0], ClauseText(later[1..]));
    } else {
      ClauseShape(first);
    }
    assert !(Clause(first) <= text);
  }

  /** The text of a built statement reads back as exactly the fields the filter sets. */
  lemma ParseBuild(q: SqlQuery)
    ensures ParsePresence(Build(q).text) == Some(PresentFields(q))
  {
    var clauses := ClauseText(PresentFields(q));
    assert (BaseStatement + clauses)[|BaseStatement|..] == clauses;
    ParseClauseText(q, FieldOrder);
  }

  lemma {:induction false} PresentAmongSamePresence(q1: SqlQuery, q2: SqlQuery, fields: seq<Field>)
    requires SamePresence(q1, q2)
    ensures PresentAmong(q1, fields) == PresentAmong(q2, fields)
  {
    if fields != [] {
      assert Lookup(q1, fields[0]).Some? <==> Lookup(q2, fields[0]).Some?;
      PresentAmongSamePresence(q1, q2, fields[1..]);
    }
  }

  /**
   * The statement text is the same for two filters exactly when they set the
   * same fields: the values never reach the text, and the text tells which
   * fields are set.
   */
  lemma TextDependsOnlyOnPresence(q1: SqlQuery, q2: SqlQuery)
    ensures Build(q1).text == Build(q2).text <==> SamePresence(q1, q2)
  {
    if SamePresence(q1, q2) {
      PresentAmongSamePresence(q1, q2, FieldOrder);
    }
    if Build(q1).text == Build(q2).text {
      ParseBuild(q1);
      ParseBuild(q2);
      assert PresentFields(q1) == PresentFields(q2);
    }
  }

  /** Every statement starts with the base statement. */
  lemma BaseIsPrefix(q: SqlQuery)
    ensures BaseStatement <= Build(q).text
    ensures Build(q).text[|BaseStatement|..] == ClauseText(PresentFields(q))
  {
  }
}
