/**
 CDataStorage: the object that holds the values. Its configuration tables are
 constants; every method keeps each vector as long as its point table.
 */
module DataStorage {
  import opened Base
  import opened Points
  import opened StoredFormula
  import opened Arith
  import ExpParser
  import ReplaceRange

  class DataStorage {
    const tables: map<string, PointTable>
    /** asInt, asDouble or asString by declared type, as a JSON value. */
    const convert: (int, ValueWrap) -> Json
    var mapValue: Values

    ghost predicate Valid()
      reads this
    {
      Shaped(mapValue, tables)
    }

    constructor (ts: map<string, PointTable>, conv: (int, ValueWrap) -> Json)
      ensures Valid() && mapValue == map[]
      ensures tables == ts && convert == conv
    {
      tables, convert, mapValue := ts, conv, map[];
    }

    method InitData(devName: string)
      modifies this`mapValue
      ensures mapValue == if devName !in tables then old(mapValue)
                          else Initialised(old(mapValue), devName, tables[devName])
    {
      hide Members, MemberType, RowsOf;
      if devName !in tables {
        return;
      }
      var rows, members := tables[devName].rows, Members(tables[devName]);
      MembersListed(tables[devName]);
      ghost var before := if devName in mapValue then mapValue[devName] else map[];
      for i := 0 to |members|
        invariant i == 0 ==> mapValue == old(mapValue)
        invariant i > 0 ==> mapValue == old(mapValue)[devName := Filled(before, rows, members[..i])]
      {
        assert members[..i + 1][..i] == members[..i];
        var vs := if devName in mapValue then mapValue[devName] else map[];
        var vecValue := Zeros(|RowsOf(rows, members[i])|);
        mapValue := mapValue[devName := vs[MemberType(members[i]) := vecValue]];
      }
      assert members[..|members|] == members;
    }

    /** The member of its table that is written last to SIGNAL has as many rows as "signal". */
    predicate Kept(d: string)
      requires d in tables
    {
      SignalKept(tables[d])
    }

    /**
     Devices of the acquisition tasks, in the order init meets them. Everything has the shape of the
     tables afterwards exactly when every table with rows is Kept.
     */
    method Init(devices: seq<string>)
      requires Valid()
      modifies this`mapValue
      ensures Valid() <==> forall d | d in devices && d in tables && tables[d].rows != map[] :: Kept(d)
      ensures forall d | d in devices && d in tables && tables[d].rows != map[] :: d in mapValue
      ensures forall d | d in mapValue :: d in old(mapValue) || d in devices
      ensures old(mapValue) == map[] ==>
                forall n, u, i | Lookup(mapValue, n, u, i).Some? ::
                  Lookup(mapValue, n, u, i).value == Integer(INT32, 0)
    {
      hide Through, Initialised, Shaped;
      ThroughNothing(mapValue);
      assert devices[..0] == [] && devices[..|devices|] == devices;
      for i := 0 to |devices|
        invariant Through(old(mapValue), mapValue, devices[..i])
      {
        assert devices[..i + 1] == devices[..i] + [devices[i]];
        ThroughNext(old(mapValue), mapValue, devices[..i], devices[i]);
        InitData(devices[i]);
      }
      ThroughAll(old(mapValue), mapValue, devices);
    }

    /** The device is among those, and its table has members to fill. */
    predicate Filling(d: string, devices: seq<string>) {
      d in devices && d in tables && tables[d].rows != map[]
    }

    /** The values after the first devices, `done`, have been filled. */
    ghost predicate Through(before: Values, values: Values, done: seq<string>)
    {
      && Prepared(values, tables)
      && (forall d :: d in values <==> d in before || Filling(d, done))
      && (forall d <- values :: ShapedLike(values[d], tables[d]) <==> (Filling(d, done) ==> Kept(d)))
      && (before == map[] ==> AllZero(values))
    }

    lemma ThroughNothing(values: Values)
      requires Shaped(values, tables)
      ensures Through(values, values, [])
    {
      hide ShapedLike, SignalKept, AllZero, TypeRows;
      ShapedPrepared(values);
      NothingZero();
    }

    lemma NothingZero()
      ensures AllZero(map[])
    {
    }

    lemma ThroughNext(before: Values, values: Values, done: seq<string>, d: string)
      requires Through(before, values, done)
      ensures
        && var next := if d !in tables then values else Initialised(values, d, tables[d]);
        Through(before, next, done + [d])
    {
      hide Through;
      if d in tables && tables[d].rows != map[] {
        ThroughFilled(before, values, done, d);
      } else {
        ThroughSame(before, values, done, d);
        assert d in tables ==> Initialised(values, d, tables[d]) == values;
      }
    }

    lemma ThroughSame(before: Values, values: Values, done: seq<string>, d: string)
      requires Through(before, values, done) && !Filling(d, [d])
      ensures Through(before, values, done + [d])
    {
      hide Prepared, ShapedLike, SignalKept, AllZero;
      assert forall x :: x in done + [d] <==> x in done || x == d;
      assert forall x :: Filling(x, done + [d]) <==> Filling(x, done);
    }

    lemma ThroughFilled(before: Values, values: Values, done: seq<string>, d: string)
      requires Through(before, values, done) && Filling(d, [d])
      ensures Through(before, Initialised(values, d, tables[d]), done + [d])
    {
      hide Prepared, ShapedLike, SignalKept, AllZero, Initialised;
      InitialisedShaped(values, tables, d);
      if before == map[] {
        InitialisedZero(values, d, tables[d]);
      }
      assert forall x :: x in done + [d] <==> x in done || x == d;
      assert forall x :: Filling(x, done + [d]) <==> Filling(x, done) || x == d;
    }

    lemma ThroughAll(before: Values, values: Values, done: seq<string>)
      requires Through(before, values, done) && Shaped(before, tables)
      ensures Shaped(values, tables)
         <==> forall d | d in done && d in tables && tables[d].rows != map[] :: Kept(d)
      ensures forall d | d in done && d in tables && tables[d].rows != map[] :: d in values
      ensures forall d | d in values :: d in before || d in done
      ensures before == map[] ==> AllZero(values)
    {
      hide Startable, ShapedLike, SignalKept, AllZero, TypeRows;
    }

    lemma ShapedPrepared(values: Values)
      requires Shaped(values, tables)
      ensures Prepared(values, tables)
    {
    }

    /** m_mapValue[name][type]: reading an absent type creates an empty vector. */
    method Touch(name: string, t: DataType) returns (vec: seq<ValueWrap>)
      requires Valid() && name in mapValue
      modifies this`mapValue
      ensures Valid() && mapValue.Keys == old(mapValue.Keys)
      ensures t in mapValue[name] && vec == mapValue[name][t] == VectorOf(old(mapValue)[name], t)
      ensures forall n, u, i :: Lookup(mapValue, n, u, i) == Lookup(old(mapValue), n, u, i)
    {
      hide TypeRows;
      if t !in mapValue[name] {
        mapValue := mapValue[name := mapValue[name][t := []]];
      }
      vec := mapValue[name][t];
    }

    method UpdateValue(name: string, t: DataType, pointId: int, data: ValueWrap) returns (ok: bool)
      requires Valid()
      modifies this`mapValue
      ensures Valid() && mapValue.Keys == old(mapValue.Keys)
      ensures ok <==> Lookup(old(mapValue), name, t, pointId).Some?
      ensures
        forall n, u, i ::
          Lookup(mapValue, n, u, i) ==
          if ok && n == name && u == t && i == pointId then Some(data) else Lookup(old(mapValue), n, u, i)
    {
      hide ShapedLike, TypeRows;
      if name !in mapValue {
        return false;
      }
      var vecData := Touch(name, t);
      if pointId < 0 || pointId >= |vecData| {
        return false;
      }
      StoreLookup(mapValue, name, t, pointId, data);
      StoreShaped(mapValue[name], tables[name], t, vecData[pointId := data]);
      mapValue := Store(mapValue, name, t, pointId, data);
      return true;
    }

    method GetValue(name: string, t: DataType, pointId: int) returns (data: Option<ValueWrap>)
      requires Valid()
      modifies this`mapValue
      ensures Valid() && mapValue.Keys == old(mapValue.Keys)
      ensures data == Lookup(old(mapValue), name, t, pointId)
      ensures forall n, u, i :: Lookup(mapValue, n, u, i) == Lookup(old(mapValue), n, u, i)
    {
      if name !in mapValue {
        return None;
      }
      var vecData := Touch(name, t);
      if pointId < 0 || pointId >= |vecData| {
        return None;
      }
      return Some(vecData[pointId]);
    }

    /**
     Is index the least row of the device's table whose field has the value of the condition, converted
     by the field's declared type, 0 if it has none, or -1 if there is no such row? It is -1 too for an
     unknown type or device, and for a declared type beyond 2.
     */
    ghost predicate Selects(name: string, t: DataType, field: string, v: ValueWrap, index: int)
      reads this
      requires Valid()
    {
      if t == UNKNOWN || name !in mapValue then index == -1
      else
        var key, types := (MemberName(t).value, field), tables[name].fieldTypes;
        var k := if key in types then types[key] else 0;
        if k != 0 && k != 1 && k != 2 then index == -1
        else
          var rows := TypeRows(tables[name], t);
          && -1 <= index < |rows|
          && (index >= 0 ==> (if field in rows[index] then rows[index][field] else JsonNull) == convert(k, v))
          && forall i | 0 <= i < |rows| && (i < index || index == -1) ::
               (if field in rows[i] then rows[i][field] else JsonNull) != convert(k, v)
    }

    /** The position a condition selects; it depends on the tables and the devices held only. */
    function Index(name: string, t: DataType, field: string, v: ValueWrap): int
      reads this
      requires Valid()
    {
      if MemberName(t).None? || name !in mapValue then -1
      else
        var dataType := FieldType(tables[name], MemberName(t).value, field);
        if 0 <= dataType <= 2 then FirstMatch(TypeRows(tables[name], t), field, convert(dataType, v), 0) else -1
    }

    method GetIndex(name: string, t: DataType, field: string, v: ValueWrap) returns (index: int)
      requires Valid()
      ensures index == Index(name, t, field, v) && Selects(name, t, field, v, index)
    {
      IndexSelects(name, t, field, v);
      index := -1;
      if MemberName(t).None? || name !in mapValue {
        return;
      }
      var member := MemberName(t).value;
      var dataType := FieldType(tables[name], member, field);
      if !(0 <= dataType <= 2) {
        return;
      }
      var wanted := convert(dataType, v);
      var rows := RowsOf(tables[name].rows, member);
      var i := 0;
      while i < |rows|
        invariant 0 <= i <= |rows| && index == -1
        invariant FirstMatch(rows, field, wanted, 0) == FirstMatch(rows, field, wanted, i)
      {
        if Field(rows[i], field) == wanted {
          index := i;
          break;
        }
        i := i + 1;
      }
    }

    lemma {:induction false} IndexSelects(name: string, t: DataType, field: string, v: ValueWrap)
      requires Valid()
      ensures forall i :: Selects(name, t, field, v, i) <==> i == Index(name, t, field, v)
    {
      if t != UNKNOWN && name in mapValue {
        var k := FieldType(tables[name], MemberName(t).value, field);
        if 0 <= k <= 2 {
          FirstMatchIs(TypeRows(tables[name], t), field, convert(k, v), 0);
        }
      }
    }

    /** An index found by condition is in range of the stored vector. */
    lemma IndexInRange(name: string, t: DataType, field: string, v: ValueWrap)
      requires Valid()
      ensures var i := Index(name, t, field, v);
              i == -1 || (Lookup(mapValue, name, t, i).Some? && i < |TypeRows(tables[name], t)|)
    {
    }

    method UpdateValueBy(name: string, t: DataType, field: string, v: ValueWrap, data: ValueWrap) returns (ok: bool)
      requires Valid()
      modifies this`mapValue
      ensures Valid() && mapValue.Keys == old(mapValue.Keys)
      ensures ok <==> old(Index(name, t, field, v)) >= 0
      ensures Index(name, t, field, v) == old(Index(name, t, field, v))
      ensures Selects(name, t, field, v, Index(name, t, field, v))
      ensures ok ==> Lookup(mapValue, name, t, Index(name, t, field, v)) == Some(data)
      ensures forall n, u, i :: !(ok && n == name && u == t && i == Index(name, t, field, v))
                                ==> Lookup(mapValue, n, u, i) == Lookup(old(mapValue), n, u, i)
    {
      var index := GetIndex(name, t, field, v);
      IndexSelects(name, t, field, v);
      if index < 0 {
        return false;
      }
      IndexInRange(name, t, field, v);
      ok := UpdateValue(name, t, index, data);
      IndexSelects(name, t, field, v);
    }

    method GetValueBy(name: string, t: DataType, field: string, v: ValueWrap) returns (data: Option<ValueWrap>)
      requires Valid()
      modifies this`mapValue
      ensures Valid() && mapValue.Keys == old(mapValue.Keys)
      ensures data == Lookup(old(mapValue), name, t, old(Index(name, t, field, v)))
      ensures old(Selects(name, t, field, v, Index(name, t, field, v)))
      ensures forall n, u, i :: Lookup(mapValue, n, u, i) == Lookup(old(mapValue), n, u, i)
    {
      var index := GetIndex(name, t, field, v);
      if index < 0 {
        return None;
      }
      data := GetValue(name, t, index);
    }

    /**
     The values are read as one snapshot. `garbage` is the number member of the
     parser object, which C++ leaves uninitialised.
     */
    method GetExprValue(t: DataType, expr: string, garbage: real) returns (r: ExprResult)
      requires Valid()
      ensures r == ExprValue(mapValue, t, expr, garbage)
    {
      var values := mapValue;
      ResolveClean(values, t);
      var formula := ReplaceRange.ReplaceRangeStr('<', '>', Resolver(values, t), expr);
      if formula.None? {
        return Threw;
      }
      var ok, parser := ExpParser.ExpParser.Create(formula.value, garbage);
      if !ok {
        return Threw;
      }
      if t == MEASURE {
        var _, v := parser.Calculate();
        r := Data(Double(v));
      } else if t == SIGNAL {
        var _, v := parser.Calculate();
        r := Data(Integer(UINT8, Trunc(v) % 256));
      } else {
        r := Unchanged;
      }
    }

    /** The formulas of the composite table by member name; -1 and beyond are refused. */
    method GetCompositeValue(composite: map<string, seq<string>>, t: DataType, pointId: int, garbage: real)
      returns (r: Option<ExprResult>)
      requires Valid()
      ensures var formulas := CompositeFormulas(composite, t);
              r == if 0 <= pointId < |formulas| then Some(ExprValue(mapValue, t, formulas[pointId], garbage)) else None
    {
      var formulas := CompositeFormulas(composite, t);
      if pointId < 0 || pointId >= |formulas| {
        return None;
      }
      var data := GetExprValue(t, formulas[pointId], garbage);
      r := Some(data);
    }
  }
}
