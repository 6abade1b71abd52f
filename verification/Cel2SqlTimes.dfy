/** Where CEL and SQL part over time: dynamic data beside a timestamp, and summary times that are not set. */
module Cel2SqlTimes {
  import opened Prelude
  import opened CelAst
  import opened SqlAst
  import opened Cel2SqlEmit
  import opened Cel2SqlMeaning
  import opened CelSemantics
  import opened Cel2SqlPreservation
  import opened Cel2SqlTheorems

  // ---------- dynamic data beside a timestamp ----------

  /** The comparison of a path into the record's data with a time. */
  function DataBesideTime(op: BinOp, d: Expr, time: Expr): Expr { Binary(TBool, op, d, time) }

  lemma CastVal(w: World, row: Row, q: Sql)
    ensures EvalSql(w, row, Cast(q, TimestampTz)) == SqlCast(w, EvalSql(w, row, q), TimestampTz)
  {
  }

  lemma DataBesideTimeVal(w: World, row: Row, op: BinOp, d: Expr, time: Expr)
    requires Supported(d) && d.ty.TDyn? && w.lang.Cel?
    requires (IsEquality(op) || IsComparison(op)) && time.ty.TTimestamp? && !(time.Const? && time.c.StringConst?)
    ensures var e := DataBesideTime(op, d, time); var v := Eval(w, row, d);
      && Eval(w, row, e) == BinaryVal(op, v, Eval(w, row, time))
      && EvalSql(w, row, Meaning(e))
         == SqlBin(w, BinaryToken(op).op, SqlCast(w, Text(DynText(w, v)), TimestampTz), EvalSql(w, row, Meaning(time)))
  {
    DataVal(w, row, d);
    DataFits(w, row, d);
    CastVal(w, row, Meaning(d));
    InfixVal(w, row, DataBesideTime(op, d, time));
  }

  /** Equality of a dynamic value with an instant, in values. */
  lemma DynEqualsInstant(w: World, op: BinOp, v: Val, t: int)
    requires IsEquality(op) && (DynText(w, v).Some? || v.VNull?)
    ensures BinaryVal(op, v, VTime(t)) == VBool(op.Ne?)
    ensures SqlBin(w, BinaryToken(op).op, SqlCast(w, Text(DynText(w, v)), TimestampTz), Ts(t)) == B(op.Ne?) <==>
      (DynText(w, v).Some? && w.parseTime(DynText(w, v).value).Some? && w.parseTime(DynText(w, v).value).value != t)
  {
  }

  /** A time that the translation keeps. */
  lemma TimeKept(w: World, row: Row, time: Expr)
    requires time.ty.TTimestamp? && Supported(time) && RowFits(w, row, time) && Eval(w, row, time).VTime?
    ensures EvalSql(w, row, Meaning(time)) == Ts(Eval(w, row, time).t)
    ensures !(time.Const? && time.c.StringConst?)
  {
    Preserves(w, row, time);
  }

  /**
   In CEL dynamic data is never equal to a timestamp. The translated equality agrees exactly when the
   data is not null and its text parses, but not to that instant; otherwise it yields the opposite
   Boolean, NULL, or a failed statement.
   */
  lemma TimeEqualityIsKeptIff(w: World, row: Row, op: BinOp, d: Expr, time: Expr)
    requires IsEquality(op) && Supported(d) && d.ty.TDyn? && w.lang.Cel? && !Eval(w, row, d).VErr?
    requires time.ty.TTimestamp? && Supported(time) && RowFits(w, row, time) && Eval(w, row, time).VTime?
    ensures var e := DataBesideTime(op, d, time); var text := DynText(w, Eval(w, row, d));
      && Eval(w, row, e) == VBool(op.Ne?)
      && (EvalSql(w, row, Meaning(e)) == B(op.Ne?) <==>
            text.Some? && w.parseTime(text.value).Some? && w.parseTime(text.value).value != Eval(w, row, time).t)
  {
    TimeKept(w, row, time);
    DataVal(w, row, d);
    DataBesideTimeVal(w, row, op, d, time);
    DynEqualsInstant(w, op, Eval(w, row, d), Eval(w, row, time).t);
  }

  /** Record data {"a": {"t": text}}. */
  function Nested(text: string): Json { JObj(map["a" := JObj(map["t" := JStr(text)])]) }

  /** `data["a"].t` */
  const DATA_A_T :=
    Select(TDyn, Index(TDyn, Ident(TAny, "data", None), Const(TString, StringConst("a"))), "t", false)

  /** `data["a"].t == timestamp(...)` on data whose text is that very instant: false in CEL, true in SQL. */
  lemma EqualInstantsAreConfused(w: World, row: Row, text: string, t: int)
    requires w.lang.Cel? && w.parseTime(text) == Some(t) && row.data == Nested(text)
    ensures var e := DataBesideTime(Eq, DATA_A_T, Const(TTimestamp, TimestampConst(t)));
      Eval(w, row, e) == VBool(false) && EvalSql(w, row, Meaning(e)) == B(true)
  {
    NestedReached(w, row, text);
    PathIsSupported();
    DataBesideTimeVal(w, row, Eq, DATA_A_T, Const(TTimestamp, TimestampConst(t)));
    InstantVal(w, row, t);
    SameInstantVal(w, text, t);
  }

  lemma InstantVal(w: World, row: Row, t: int)
    ensures var time := Const(TTimestamp, TimestampConst(t));
      Eval(w, row, time) == VTime(t) && EvalSql(w, row, Meaning(time)) == Ts(t)
  {
  }

  lemma SameInstantVal(w: World, text: string, t: int)
    requires w.parseTime(text) == Some(t)
    ensures BinaryVal(Eq, VStr(text), VTime(t)) == VBool(false)
    ensures SqlBin(w, EqOp, SqlCast(w, Text(DynText(w, VStr(text))), TimestampTz), Ts(t)) == B(true)
  {
  }

  lemma ConfusedFilterIsInTheFragment(t: int)
    ensures var e := DataBesideTime(Eq, DATA_A_T, Const(TTimestamp, TimestampConst(t))); Supported(e) && Readable(e)
  {
  }

  lemma PathIsSupported()
    ensures Supported(DATA_A_T)
  {
  }

  lemma NestedReached(w: World, row: Row, text: string)
    requires row.data == Nested(text)
    ensures Eval(w, row, DATA_A_T) == VStr(text)
  {
    var data := DATA_A_T.operand.base;
    assert Eval(w, row, data) == VJson(Nested(text));
    assert Eval(w, row, DATA_A_T.operand) == IndexVal(VJson(Nested(text)), VStr("a"));
  }

  // ---------- summary times ----------

  function SummaryTime(field: string): Expr { Select(TTimestamp, Ident(TSummary, "summary", None), field, false) }

  function TimeColumn(row: Row, field: string): Option<int> {
    if field == "start_time" then row.summary.start else row.summary.end
  }

  lemma SummaryTimeVal(w: World, row: Row, field: string)
    requires field == "start_time" || field == "end_time"
    ensures Eval(w, row, SummaryTime(field)) == TimeVal(TimeColumn(row, field))
    ensures EvalSql(w, row, Meaning(SummaryTime(field))) == TimeCol(TimeColumn(row, field))
  {
    SummaryColumnNames(row, field);
    assert Meaning(SummaryTime(field)) == Col("recordsummary_" + field);
    assert Eval(w, row, SummaryTime(field).operand) == VSummary(row.summary);
    EndIsNotStart();
  }

  lemma SummaryTimeCompared(w: World, op: BinOp, column: Option<int>, t: int)
    requires IsEquality(op) || IsComparison(op)
    ensures var v := BinaryVal(op, TimeVal(column), VTime(t));
      v.VBool? && (SqlBin(w, BinaryToken(op).op, TimeCol(column), Ts(t)) == B(v.b) <==> column.Some?)
  {
  }

  function ComparedWith(op: BinOp, field: string, time: Expr): Expr { Binary(TBool, op, SummaryTime(field), time) }

  lemma ComparedWithVal(w: World, row: Row, op: BinOp, field: string, time: Expr)
    requires field == "start_time" || field == "end_time"
    requires (IsEquality(op) || IsComparison(op)) && time.ty.TTimestamp? && !(time.Const? && time.c.StringConst?)
    ensures var e := ComparedWith(op, field, time); var column := TimeColumn(row, field);
      && Eval(w, row, e) == BinaryVal(op, TimeVal(column), Eval(w, row, time))
      && EvalSql(w, row, Meaning(e)) == SqlBin(w, BinaryToken(op).op, TimeCol(column), EvalSql(w, row, Meaning(time)))
  {
    SummaryTimeVal(w, row, field);
    InfixVal(w, row, ComparedWith(op, field, time));
  }

  /** A comparison with a summary time is kept exactly when the time is set: CEL takes an unset one for the epoch. */
  lemma SummaryTimeIsKeptIff(w: World, row: Row, op: BinOp, field: string, time: Expr)
    requires field == "start_time" || field == "end_time"
    requires IsEquality(op) || IsComparison(op)
    requires time.ty.TTimestamp? && Supported(time) && RowFits(w, row, time) && Eval(w, row, time).VTime?
    ensures var e := ComparedWith(op, field, time);
      Eval(w, row, e).VBool?
      && (EvalSql(w, row, Meaning(e)) == B(Eval(w, row, e).b) <==> TimeColumn(row, field).Some?)
  {
    TimeKept(w, row, time);
    ComparedWithVal(w, row, op, field, time);
    SummaryTimeCompared(w, op, TimeColumn(row, field), Eval(w, row, time).t);
  }

  /** A Result that has not ended, filtered for one that ended before a time after the epoch: CEL keeps it, SQL drops it. */
  lemma UnsetTimeIsDropped(w: World, row: Row, t: int)
    requires row.summary.end == None && t > 0
    ensures var e := ComparedWith(Lt, "end_time", Const(TTimestamp, TimestampConst(t)));
      Eval(w, row, e) == VBool(true) && EvalSql(w, row, Meaning(e)) == Null && !Selected(w, row, Meaning(e))
  {
    ComparedWithVal(w, row, Lt, "end_time", Const(TTimestamp, TimestampConst(t)));
    EndIsNotStart();
    InstantVal(w, row, t);
    UnsetVal(w, t);
  }

  lemma UnsetVal(w: World, t: int)
    requires t > 0
    ensures BinaryVal(Lt, TimeVal(None), VTime(t)) == VBool(true) && SqlBin(w, LtOp, TimeCol(None), Ts(t)) == Null
  {
  }

  lemma EndIsNotStart()
    ensures "end_time" != "start_time"
  {
    assert "start_time"[0] == 's' && "end_time"[0] == 'e';
  }

  lemma UnsetTimeFilterIsInTheFragment(t: int)
    ensures var e := ComparedWith(Lt, "end_time", Const(TTimestamp, TimestampConst(t))); Supported(e) && Readable(e)
  {
  }
}
