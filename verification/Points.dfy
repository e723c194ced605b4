/**
 The values CDataStorage holds, one vector per device and data type, and the
 point tables that give the vectors their shape.
 */
module Points {
  import opened Base
  import opened MapOrder

  datatype DataType = SIGNAL | MEASURE | PULSE | CONTROL | PARAM | UNKNOWN

  datatype IntType = INT8 | INT32 | INT64 | UINT8 | UINT32 | UINT64

  datatype ValueWrap =
    | Integer(kind: IntType, n: int)
    | Float(x: real)
    | Double(x: real)
    | Str(s: string)
    | Boolean(b: bool)
    | Empty

  datatype Json = JsonNull | JsonInt(n: int) | JsonReal(x: real) | JsonText(s: string)

  type Row = map<string, Json>

  /** The rows of a device's point table by member name, and the declared type of each field. */
  datatype PointTable = PointTable(rows: map<string, seq<Row>>, fieldTypes: map<(string, string), int>)

  type Vectors = map<DataType, seq<ValueWrap>>

  type Values = map<string, Vectors>

  /** m_mapType, filled by init: every data type but UNKNOWN has a member name. */
  function MemberName(t: DataType): Option<string> {
    match t
    case SIGNAL => Some("signal")
    case MEASURE => Some("measure")
    case PULSE => Some("pulse")
    case CONTROL => Some("control")
    case PARAM => Some("param")
    case UNKNOWN => None
  }

  /** initData's local map; a missing key is value-initialised, which is SIGNAL. */
  function MemberType(member: string): DataType {
    if member == "measure" then MEASURE
    else if member == "pulse" then PULSE
    else if member == "control" then CONTROL
    else if member == "param" then PARAM
    else SIGNAL
  }

  predicate KnownMember(member: string) {
    MemberName(MemberType(member)) == Some(member)
  }

  lemma {:induction false} KnownMembersAre(member: string)
    ensures KnownMember(member) <==> member in ["signal", "measure", "pulse", "control", "param"]
  {
  }

  function RowsOf(rows: map<string, seq<Row>>, member: string): seq<Row> {
    if member in rows then rows[member] else []
  }

  /** The rows of a data type, none for UNKNOWN or a member the table lacks. */
  function TypeRows(table: PointTable, t: DataType): seq<Row> {
    match MemberName(t)
    case None => []
    case Some(m) => RowsOf(table.rows, m)
  }

  function VectorOf(vs: Vectors, t: DataType): seq<ValueWrap> {
    if t in vs then vs[t] else []
  }

  /** As many values as rows, in every data type. */
  ghost predicate ShapedLike(vs: Vectors, table: PointTable) {
    forall t :: |VectorOf(vs, t)| == |TypeRows(table, t)|
  }

  // ---------------------------------------------------------------- filling from a table

  const ZERO: ValueWrap := Integer(INT32, 0)

  function Zeros(n: nat): (r: seq<ValueWrap>)
    ensures |r| == n
  {
    seq(n, _ => ZERO)
  }

  /** The member names in the order the JSON library lists them, which keeps an object in a std::map. */
  function Members(table: PointTable): seq<string> {
    Ascending(table.rows.Keys)
  }

  /** initData's loop over member names. */
  function Filled(vs: Vectors, rows: map<string, seq<Row>>, members: seq<string>): Vectors
    decreases |members|
  {
    if members == [] then vs
    else
      var n := |members| - 1;
      Filled(vs, rows, members[..n])[MemberType(members[n]) := Zeros(|RowsOf(rows, members[n])|)]
  }

  /** The last member that is stored under a data type. */
  function LastOf(members: seq<string>, t: DataType): Option<string>
    decreases |members|
  {
    if members == [] then None
    else
      var n := |members| - 1;
      if MemberType(members[n]) == t then Some(members[n]) else LastOf(members[..n], t)
  }

  lemma {:induction false} FilledVector(vs: Vectors, rows: map<string, seq<Row>>, members: seq<string>, t: DataType)
    ensures VectorOf(Filled(vs, rows, members), t)
         == match LastOf(members, t) case None => VectorOf(vs, t) case Some(m) => Zeros(|RowsOf(rows, m)|)
    decreases |members|
  {
    if members != [] {
      FilledVector(vs, rows, members[..|members| - 1], t);
    }
  }

  lemma MembersListed(table: PointTable)
    ensures NoDuplicates(Members(table))
    ensures forall m :: m in Members(table) <==> m in table.rows
    ensures Members(table) == [] <==> table.rows == map[]
  {
    AscendingWalk(table.rows.Keys);
    if table.rows != map[] {
      var m :| m in table.rows.Keys;
      assert m in Members(table);
    }
  }

  lemma {:induction false} LastOfMember(members: seq<string>, t: DataType)
    ensures match LastOf(members, t)
            case None => forall i | 0 <= i < |members| :: MemberType(members[i]) != t
            case Some(m) => m in members && MemberType(m) == t
    decreases |members|
  {
    if members != [] {
      LastOfMember(members[..|members| - 1], t);
    }
  }

  /** The member written last to the SIGNAL vector has as many rows as "signal". */
  predicate SignalKept(table: PointTable) {
    match LastOf(Members(table), SIGNAL)
    case None => true
    case Some(m) => |RowsOf(table.rows, m)| == |RowsOf(table.rows, "signal")|
  }

  /** What one filling needs of the vectors held before: a repeated one only rewrites SIGNAL. */
  ghost predicate Startable(vs: Vectors, table: PointTable) {
    && (forall t :: t != SIGNAL ==> |VectorOf(vs, t)| == |TypeRows(table, t)|)
    && (LastOf(Members(table), SIGNAL).None? ==> |VectorOf(vs, SIGNAL)| == |TypeRows(table, SIGNAL)|)
  }

  /**
   initData gives a device the shape of its table exactly when SignalKept: a
   member name the code does not know is written to SIGNAL too.
   */
  lemma {:induction false} FilledShapedIff(vs: Vectors, table: PointTable)
    requires vs == map[] || Startable(vs, table)
    ensures ShapedLike(Filled(vs, table.rows, Members(table)), table) <==> SignalKept(table)
    ensures Startable(Filled(vs, table.rows, Members(table)), table)
  {
    hide Filled, Members, SignalKept;
    var r := Filled(vs, table.rows, Members(table));
    forall t
      ensures t != SIGNAL ==> |VectorOf(r, t)| == |TypeRows(table, t)|
    {
      if t != SIGNAL {
        FilledOwn(vs, table, t);
      }
    }
    FilledSignal(vs, table);
  }

  lemma FilledOwn(vs: Vectors, table: PointTable, t: DataType)
    requires (vs == map[] || Startable(vs, table)) && t != SIGNAL
    ensures |VectorOf(Filled(vs, table.rows, Members(table)), t)| == |TypeRows(table, t)|
  {
    hide Filled, Members;
    MembersListed(table);
    FilledVector(vs, table.rows, Members(table), t);
    LastOfMember(Members(table), t);
  }

  lemma FilledSignal(vs: Vectors, table: PointTable)
    requires vs == map[] || Startable(vs, table)
    ensures var n := |VectorOf(Filled(vs, table.rows, Members(table)), SIGNAL)|;
            && (n == |TypeRows(table, SIGNAL)| <==> SignalKept(table))
            && (LastOf(Members(table), SIGNAL).None? ==> n == |TypeRows(table, SIGNAL)|)
  {
    hide Filled, Members;
    MembersListed(table);
    FilledVector(vs, table.rows, Members(table), SIGNAL);
    LastOfMember(Members(table), SIGNAL);
  }

  /**
   A table with "signal" and one member the code does not know gets its shape exactly when that
   member comes before "signal" or has as many rows.
   */
  lemma {:induction false} UnknownMemberIff(member: string, signals: seq<Row>, others: seq<Row>)
    requires !KnownMember(member)
    ensures
      && var table := PointTable(map["signal" := signals, member := others], map[]);
      && (ShapedLike(Filled(map[], table.rows, Members(table)), table)
          <==> Le(member, "signal") || |signals| == |others|)
  {
    hide Le, Filled, Members;
    var table := PointTable(map["signal" := signals, member := others], map[]);
    TwoMembers(table, member);
    var members := Members(table);
    assert LastOf(members, SIGNAL) == Some(members[1]) by {
      assert members[|members| - 1] == members[1];
    }
    FilledShapedIff(map[], table);
  }

  lemma TwoMembers(table: PointTable, member: string)
    requires table.rows.Keys == {"signal", member} && member != "signal"
    ensures Members(table) == if Le(member, "signal") then [member, "signal"] else ["signal", member]
  {
    hide Le;
    AscendingWalk(table.rows.Keys);
    var s := Members(table);
    assert "signal" in table.rows.Keys && member in table.rows.Keys;
    LeTotal(member, "signal");
    if Le(member, "signal") && Le("signal", member) {
      LeAntisymmetric(member, "signal");
    }
    TwoElements(s, "signal", member);
  }

  lemma TwoElements(s: seq<string>, a: string, b: string)
    requires NoDuplicates(s) && a != b && a in s && b in s && forall x | x in s :: x == a || x == b
    ensures s == [a, b] || s == [b, a]
  {
    assert |s| > 2 ==> s[0] != s[1] && s[0] != s[2] && s[1] != s[2];
    forall k | 0 <= k < |s| ensures s[k] == a || s[k] == b {
      assert s[k] in s;
    }
  }

  /** Every table is kept whose members the code knows. */
  lemma {:induction false} KnownMembersKept(table: PointTable)
    requires forall m <- table.rows :: KnownMember(m)
    ensures SignalKept(table)
  {
    hide Members;
    MembersListed(table);
    LastOfMember(Members(table), SIGNAL);
  }

  /** The rows that give each data type its shape. */
  lemma {:induction false} TypeRowsAre(table: PointTable)
    ensures TypeRows(table, SIGNAL) == if "signal" in table.rows then table.rows["signal"] else []
    ensures TypeRows(table, MEASURE) == if "measure" in table.rows then table.rows["measure"] else []
    ensures TypeRows(table, PULSE) == if "pulse" in table.rows then table.rows["pulse"] else []
    ensures TypeRows(table, CONTROL) == if "control" in table.rows then table.rows["control"] else []
    ensures TypeRows(table, PARAM) == if "param" in table.rows then table.rows["param"] else []
    ensures TypeRows(table, UNKNOWN) == []
  {
  }

  /** After initData the vectors of the other types are as long as the members of these names. */
  lemma {:induction false} FilledLengths(vs: Vectors, table: PointTable)
    requires vs == map[] || Startable(vs, table)
    ensures var r := Filled(vs, table.rows, Members(table));
            && |VectorOf(r, MEASURE)| == (if "measure" in table.rows then |table.rows["measure"]| else 0)
            && |VectorOf(r, PULSE)| == (if "pulse" in table.rows then |table.rows["pulse"]| else 0)
            && |VectorOf(r, CONTROL)| == (if "control" in table.rows then |table.rows["control"]| else 0)
            && |VectorOf(r, PARAM)| == (if "param" in table.rows then |table.rows["param"]| else 0)
            && |VectorOf(r, UNKNOWN)| == 0
            && (|VectorOf(r, SIGNAL)| == (if "signal" in table.rows then |table.rows["signal"]| else 0)
                <==> SignalKept(table))
  {
    hide Filled, Members, Startable, SignalKept, TypeRows;
    var r := Filled(vs, table.rows, Members(table));
    FilledShapedIff(vs, table);
    TypeRowsAre(table);
    assert forall t :: t != SIGNAL ==> |VectorOf(r, t)| == |TypeRows(table, t)| by {
      StartableLengths(r, table);
    }
    FilledSignal(vs, table);
  }

  lemma StartableLengths(vs: Vectors, table: PointTable)
    requires Startable(vs, table)
    ensures forall t :: t != SIGNAL ==> |VectorOf(vs, t)| == |TypeRows(table, t)|
  {
  }

  // ---------------------------------------------------------------- points

  /** The value stored for a point. */
  function Lookup(values: Values, name: string, t: DataType, id: int): Option<ValueWrap> {
    if name in values && 0 <= id < |VectorOf(values[name], t)| then Some(VectorOf(values[name], t)[id]) else None
  }

  function Field(row: Row, field: string): Json {
    if field in row then row[field] else JsonNull
  }

  /** The first of rows[from..] whose field equals the wanted value, or -1. */
  function FirstMatch(rows: seq<Row>, field: string, wanted: Json, from: nat): (r: int)
    requires from <= |rows|
    ensures r == -1 || from <= r < |rows|
    decreases |rows| - from
  {
    if from == |rows| then -1
    else if Field(rows[from], field) == wanted then from
    else FirstMatch(rows, field, wanted, from + 1)
  }

  lemma {:induction false} FirstMatchIs(rows: seq<Row>, field: string, wanted: Json, from: nat)
    requires from <= |rows|
    ensures var r := FirstMatch(rows, field, wanted, from);
            && (r >= 0 ==> Field(rows[r], field) == wanted)
            && (forall i | from <= i < (if r < 0 then |rows| else r) :: Field(rows[i], field) != wanted)
    decreases |rows| - from
  {
    if from < |rows| && Field(rows[from], field) != wanted {
      FirstMatchIs(rows, field, wanted, from + 1);
    }
  }

  /** The declared type of a field; an undeclared one reads as 0. */
  function FieldType(table: PointTable, member: string, field: string): int {
    if (member, field) in table.fieldTypes then table.fieldTypes[(member, field)] else 0
  }

  /** Every device held has the shape of its point table. */
  ghost predicate Shaped(values: Values, tables: map<string, PointTable>) {
    forall name <- values :: name in tables && ShapedLike(values[name], tables[name])
  }

  /** initData on one device; a table without members leaves nothing behind. */
  function Initialised(values: Values, name: string, table: PointTable): Values {
    if table.rows == map[] then values
    else values[name := Filled(if name in values then values[name] else map[], table.rows, Members(table))]
  }

  /** Every device held can be filled again. */
  ghost predicate Prepared(values: Values, tables: map<string, PointTable>) {
    forall d <- values :: d in tables && Startable(values[d], tables[d])
  }

  /** Initialising one device settles whether that device is shaped, and changes no other. */
  lemma {:induction false} InitialisedShaped(values: Values, tables: map<string, PointTable>, name: string)
    requires Prepared(values, tables) && name in tables && tables[name].rows != map[]
    ensures var r := Initialised(values, name, tables[name]);
            && Prepared(r, tables)
            && r.Keys == values.Keys + {name}
            && (ShapedLike(r[name], tables[name]) <==> SignalKept(tables[name]))
            && forall d <- values | d != name :: r[d] == values[d]
  {
    hide Filled, SignalKept, Startable;
    FilledShapedIff(if name in values then values[name] else map[], tables[name]);
  }

  /** Every value held is the initial one. */
  ghost predicate AllZero(values: Values) {
    forall name, t, i :: Lookup(values, name, t, i).Some? ==> Lookup(values, name, t, i).value == ZERO
  }

  lemma {:induction false} InitialisedZero(values: Values, name: string, table: PointTable)
    requires AllZero(values)
    ensures AllZero(Initialised(values, name, table))
  {
    hide Filled, Members;
    var vs := if name in values then values[name] else map[];
    forall n, t, i | Lookup(Initialised(values, name, table), n, t, i).Some?
      ensures Lookup(Initialised(values, name, table), n, t, i).value == ZERO
    {
      FilledVector(vs, table.rows, Members(table), t);
      assert Lookup(values, n, t, i).Some? ==> Lookup(values, n, t, i).value == ZERO;
    }
  }

  /** One value written in place. */
  function Store(values: Values, name: string, t: DataType, id: nat, data: ValueWrap): Values
    requires name in values && t in values[name] && id < |values[name][t]|
  {
    values[name := values[name][t := values[name][t][id := data]]]
  }

  lemma StoreLookup(values: Values, name: string, t: DataType, id: nat, data: ValueWrap)
    requires name in values && t in values[name] && id < |values[name][t]|
    ensures Store(values, name, t, id, data).Keys == values.Keys
    ensures forall n, u, i :: Lookup(Store(values, name, t, id, data), n, u, i) ==
                              (if n == name && u == t && i == id then Some(data) else Lookup(values, n, u, i))
  {
  }

  lemma StoreShaped(vs: Vectors, table: PointTable, t: DataType, vec: seq<ValueWrap>)
    requires ShapedLike(vs, table) && t in vs && |vec| == |vs[t]|
    ensures ShapedLike(vs[t := vec], table)
  {
    forall u
      ensures |VectorOf(vs[t := vec], u)| == |TypeRows(table, u)|
    {
      assert |VectorOf(vs, u)| == |TypeRows(table, u)|;
    }
  }
}
