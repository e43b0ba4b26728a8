/**
 * The positional-parameter convention the handlers share when they assemble
 * SQL text: the n-th value appended to `args` is written `$n` in the text,
 * and a running counter `argIdx` holds the next free n.
 */
module Sql {
  import opened Wrappers
  import opened Text

  /** A value bound to a placeholder (Go's `interface{}` argument). */
  datatype SqlArg = Str(s: string) | Int(i: int) | Date(d: int) | Real(r: real)

  /** `$n`, as `fmt.Sprintf("$%d", n)` writes it. */
  function Placeholder(n: nat): string {
    "$" + DecimalString(n)
  }

  /** `col = $n`, as `fmt.Sprintf("%s = $%d", col, n)` writes it. */
  function Assignment(column: string, n: nat): string {
    column + " = " + Placeholder(n)
  }

  /** The request members that are present, in order, as (column, value) pairs. */
  function Provided(fields: seq<(string, Option<SqlArg>)>): (ps: seq<(string, SqlArg)>)
    ensures |ps| <= |fields|
    ensures |ps| == 0 <==> forall i :: 0 <= i < |fields| ==> fields[i].1.None?
    decreases |fields|
  {
    if fields == [] then []
    else
      var last := fields[|fields| - 1];
      Provided(fields[..|fields| - 1]) + (if last.1.Some? then [(last.0, last.1.value)] else [])
  }

  /** A pair is provided exactly when its member is present in the request. */
  lemma {:induction false} ProvidedMembers(fields: seq<(string, Option<SqlArg>)>)
    ensures forall p :: p in Provided(fields) ==> (p.0, Some(p.1)) in fields
    ensures forall i :: 0 <= i < |fields| && fields[i].1.Some? ==> (fields[i].0, fields[i].1.value) in Provided(fields)
    decreases |fields|
  {
    if fields != [] {
      var init := fields[..|fields| - 1];
      ProvidedMembers(init);
      forall i | 0 <= i < |init| ensures init[i] == fields[i] { }
    }
  }

  /** The SET clauses for `ps` when the first one gets placeholder `$first`. */
  function Assignments(ps: seq<(string, SqlArg)>, first: nat): (cs: seq<string>)
    ensures |cs| == |ps|
  {
    seq(|ps|, i requires 0 <= i < |ps| => Assignment(ps[i].0, first + i))
  }

  function ArgsOf(ps: seq<(string, SqlArg)>): (args: seq<SqlArg>)
    ensures |args| == |ps|
  {
    seq(|ps|, i requires 0 <= i < |ps| => ps[i].1)
  }

  /**
   * The `addField` step of the update handlers, run over the request members
   * in source order: each present member appends `col = $argIdx` to the SET
   * clauses and its value to `args`, then bumps `argIdx`. Afterwards clause k
   * names placeholder `$(k+1)`, which is `args[k]`, and `argIdx` is the next
   * free placeholder.
   */
  method BuildSetClauses(fields: seq<(string, Option<SqlArg>)>)
    returns (setClauses: seq<string>, args: seq<SqlArg>, argIdx: nat)
    ensures setClauses == Assignments(Provided(fields), 1)
    ensures args == ArgsOf(Provided(fields))
    ensures argIdx == |args| + 1
  {
    setClauses, args, argIdx := [], [], 1;
    for i := 0 to |fields|
      invariant setClauses == Assignments(Provided(fields[..i]), 1)
      invariant args == ArgsOf(Provided(fields[..i]))
      invariant argIdx == |args| + 1
    {
      assert fields[..i + 1][..i] == fields[..i];
      var (col, val) := fields[i];
      assert Provided(fields[..i + 1]) == Provided(fields[..i]) + (if val.Some? then [(col, val.value)] else []);
      if val.Some? {
        setClauses := setClauses + [Assignment(col, argIdx)];
        args := args + [val.value];
        argIdx := argIdx + 1;
      }
    }
    assert fields[..|fields|] == fields;
  }

  /**
   * The `setStr` loop of the document update handler: the clauses separated by
   * ", ", which is what `strings.Join(setClauses, ", ")` gives the employee
   * update handler.
   */
  method JoinClauses(clauses: seq<string>) returns (setStr: string)
    ensures setStr == Join(clauses, ", ")
  {
    setStr := "";
    for i := 0 to |clauses|
      invariant setStr == Join(clauses[..i], ", ")
    {
      assert clauses[..i + 1][..i] == clauses[..i];
      if i > 0 {
        setStr := setStr + ", ";
      }
      setStr := setStr + clauses[i];
    }
    assert clauses[..|clauses|] == clauses;
  }

  /** An UPDATE whose SET list is `setList` and whose row is `WHERE id = $idPlaceholder`. */
  datatype UpdateSql = UpdateSql(setList: string, idPlaceholder: nat, args: seq<SqlArg>)

  /**
   * The statement both update handlers issue once at least one member is
   * present: the SET clauses with `timestampClause` appended last, the row id
   * bound to the placeholder after the last field's.
   */
  method UpdateStatement(fields: seq<(string, Option<SqlArg>)>, timestampClause: string, id: SqlArg)
    returns (r: Option<UpdateSql>)
    ensures r.None? <==> Provided(fields) == []
    ensures r.Some? ==> r.value.setList == Join(Assignments(Provided(fields), 1) + [timestampClause], ", ")
    ensures r.Some? ==> r.value.idPlaceholder == |Provided(fields)| + 1
    ensures r.Some? ==> r.value.args == ArgsOf(Provided(fields)) + [id]
  {
    var setClauses, args, argIdx := BuildSetClauses(fields);
    if |setClauses| == 0 {
      return None;
    }
    setClauses := setClauses + [timestampClause];
    var setStr := JoinClauses(setClauses);
    r := Some(UpdateSql(setStr, argIdx, args + [id]));
  }
}
