/**
 JSON transfer (base/util/json_transfer.h, base/util/transfer_object.h): typed values to JSON values and back.  The
 text form of JSON and the library that reads and writes it are outside the model.
 */
module Transfer {
  import opened Wrappers
  import Layout

  // ---------------------------------------------------------------------------------------------- values and types

  // Elements of a set are listed in the order of their type's operator<.
  datatype Val =
    | Number(n: int)
    | Boolean(b: bool)
    | Float(r: real)
    | Text(s: string)
    | Items(items: seq<Val>)
    | Members(members: seq<Val>)
    | Table(table: map<string, Val>)
    | Record(fields: seq<Val>)

  datatype Type =
    | Signed(bits: nat)
    | Unsigned(bits: nat)
    | Bool
    | Real
    | String
    | VectorOf(elem: Type)
    | SetOf(elem: Type, before: (Val, Val) -> bool)
    | MapOf(elem: Type)
    | Object(version: nat, fields: seq<Field>)

  datatype Field = Field(name: string, fieldType: Type, def: Val, strict: bool, allowNull: bool, noDefault: bool)

  datatype Json =
    | JNull
    | JInt(n: int)
    | JUInt(n: int)
    | JReal(r: real)
    | JBool(b: bool)
    | JString(s: string)
    | JArray(elements: seq<Json>)
    | JObject(object_: map<string, Json>)

  const TWO_63 := 0x8000_0000_0000_0000

  function Pow2(n: nat): int {
    if n == 0 then 1 else 2 * Pow2(n - 1)
  }

  predicate FitsSigned(n: int, bits: nat)
    requires bits > 0
  {
    -Pow2(bits - 1) <= n < Pow2(bits - 1)
  }

  predicate Ascending(s: seq<Val>, before: (Val, Val) -> bool) {
    forall i :: 0 <= i < |s| - 1 ==> before(s[i], s[i + 1])
  }

  predicate HasType(t: Type, v: Val)
    decreases t
  {
    match t
    case Signed(bits) => v.Number? && 0 < bits <= 64 && FitsSigned(v.n, bits)
    case Unsigned(bits) => v.Number? && bits <= 64 && 0 <= v.n < Pow2(bits)
    case Bool => v.Boolean?
    case Real => v.Float?
    case String => v.Text?
    case VectorOf(e) => v.Items? && forall i :: 0 <= i < |v.items| ==> HasType(e, v.items[i])
    case SetOf(e, before) =>
      v.Members? && Ascending(v.members, before) && forall i :: 0 <= i < |v.members| ==> HasType(e, v.members[i])
    case MapOf(e) => v.Table? && forall k :: k in v.table ==> HasType(e, v.table[k])
    case Object(_, fields) =>
      v.Record? && |v.fields| == |fields| && forall i :: 0 <= i < |fields| ==> HasType(fields[i].fieldType, v.fields[i])
  }

  // Field names are the names of data members, so no two are alike, and defaults have their fields' types.
  predicate WellFormed(t: Type)
    decreases t
  {
    match t
    case VectorOf(e) => WellFormed(e)
    case SetOf(e, _) => WellFormed(e)
    case MapOf(e) => WellFormed(e)
    case Object(_, fields) =>
      && (forall i, j :: 0 <= i < j < |fields| ==> fields[i].name != fields[j].name)
      && (forall i :: 0 <= i < |fields| ==>
            HasType(fields[i].fieldType, fields[i].def) && WellFormed(fields[i].fieldType))
    case Signed(bits) => 0 < bits <= 64
    case Unsigned(bits) => bits <= 64
    case _ => true
  }

  // ---------------------------------------------------------------------------------------------- wrapping

  function Wrap(t: Type, v: Val): Json
    requires HasType(t, v)
    decreases t, 0
  {
    match t
    case Signed(_) => JInt(v.n)
    case Unsigned(_) => JUInt(v.n)
    case Bool => JBool(v.b)
    case Real => JReal(v.r)
    case String => JString(v.s)
    case VectorOf(e) => ArrayOf(WrapItems(e, v.items))
    case SetOf(e, _) => ArrayOf(WrapItems(e, v.members))
    case MapOf(e) => ObjectOf(WrapTable(e, v.table))
    case Object(_, fields) => ObjectOf(WrapFields(t, v, |fields|))
  }

  // A value that nothing was appended to is null, and so is an object that nothing was put into.
  function ArrayOf(elements: seq<Json>): Json {
    if elements == [] then JNull else JArray(elements)
  }

  function ObjectOf(members: map<string, Json>): Json {
    if members == map[] then JNull else JObject(members)
  }

  function WrapItems(e: Type, items: seq<Val>): (r: seq<Json>)
    requires forall i :: 0 <= i < |items| ==> HasType(e, items[i])
    ensures |r| == |items| && forall i :: 0 <= i < |items| ==> r[i] == Wrap(e, items[i])
    decreases e, 1
  {
    seq(|items|, i requires 0 <= i < |items| => Wrap(e, items[i]))
  }

  function WrapTable(e: Type, table: map<string, Val>): (o: map<string, Json>)
    requires forall k :: k in table ==> HasType(e, table[k])
    ensures o.Keys == table.Keys && forall k :: k in table ==> o[k] == Wrap(e, table[k])
    decreases e, 1
  {
    map k | k in table :: Wrap(e, table[k])
  }

  // The version, when there is one, and the first n fields.
  function WrapFields(t: Type, v: Val, n: nat): map<string, Json>
    requires t.Object? && HasType(t, v) && n <= |t.fields|
    decreases t, 0, n
  {
    if n == 0 then if t.version != 0 then map["_ver" := JUInt(t.version)] else map[]
    else WrapFields(t, v, n - 1)[t.fields[n - 1].name := Wrap(t.fields[n - 1].fieldType, v.fields[n - 1])]
  }

  // ---------------------------------------------------------------------------------------------- unwrapping

  // A default-constructed value.
  function Default(t: Type): Val
    decreases t
  {
    match t
    case Signed(_) => Number(0)
    case Unsigned(_) => Number(0)
    case Bool => Boolean(false)
    case Real => Float(0.0)
    case String => Text("")
    case VectorOf(_) => Items([])
    case SetOf(_, _) => Members([])
    case MapOf(_) => Table(map[])
    case Object(_, fields) => Record(seq(|fields|, i requires 0 <= i < |fields| => Default(fields[i].fieldType)))
  }

  lemma {:induction false} Pow2Positive(n: nat)
    ensures Pow2(n) > 0
  {
    if n > 0 {
      Pow2Positive(n - 1);
    }
  }

  lemma {:induction false} DefaultHasType(t: Type)
    requires WellFormed(t)
    ensures HasType(t, Default(t))
    decreases t
  {
    match t
    case Signed(bits) => Pow2Positive(bits - 1);
    case Unsigned(bits) => Pow2Positive(bits);
    case Object(_, fields) =>
      forall i | 0 <= i < |fields| ensures HasType(fields[i].fieldType, Default(fields[i].fieldType)) {
        DefaultHasType(fields[i].fieldType);
      }
    case _ =>
  }

  // A native integer keeps the low bits of what it is assigned.
  function Narrowed(t: Type, n: int): int
    requires t.Signed? || t.Unsigned?
  {
    if Pow2(t.bits) <= 0 then 0
    else
      var low := n % Pow2(t.bits);
      if t.Signed? && 2 * low >= Pow2(t.bits) then low - Pow2(t.bits) else low
  }

  function AsInt64(j: Json): Option<int> {
    match j
    case JInt(n) => Some(n)
    case JUInt(n) => if n < TWO_63 then Some(n) else None
    case _ => None
  }

  function AsUInt64(j: Json): Option<int> {
    match j
    case JInt(n) => if n >= 0 then Some(n) else None
    case JUInt(n) => Some(n)
    case _ => None
  }

  function AsDouble(j: Json): Option<real> {
    match j
    case JReal(r) => Some(r)
    case JInt(n) => Some(n as real)
    case JUInt(n) => Some(n as real)
    case _ => None
  }

  // std::set::insert
  function Inserted(s: seq<Val>, x: Val, before: (Val, Val) -> bool): seq<Val> {
    if s == [] then [x]
    else
      var last := s[|s| - 1];
      if before(last, x) then s + [x]
      else if before(x, last) then Inserted(s[..|s| - 1], x, before) + [last]
      else s
  }

  // Reading into a value that holds `prior`; None is a deserialization error.
  function Unwrap(t: Type, prior: Val, j: Json): Option<Val>
    decreases t, 0
  {
    match t
    case Signed(_) => if AsInt64(j).Some? then Some(Number(Narrowed(t, AsInt64(j).value))) else None
    case Unsigned(_) => if AsUInt64(j).Some? then Some(Number(Narrowed(t, AsUInt64(j).value))) else None
    case Bool => if j.JBool? then Some(Boolean(j.b)) else None
    case Real => if AsDouble(j).Some? then Some(Float(AsDouble(j).value)) else None
    case String => if j.JString? then Some(Text(j.s)) else None
    case VectorOf(e) =>
      if !j.JArray? then None
      else
        var items := UnwrapItems(e, j.elements, |j.elements|);
        if items.Some? then Some(Items(items.value)) else None
    case SetOf(e, before) =>
      if !j.JArray? then None
      else
        var items := UnwrapMembers(e, before, j.elements, |j.elements|);
        if items.Some? then Some(Members(items.value)) else None
    case MapOf(e) =>
      if !j.JObject? then None
      else
        var table := UnwrapTable(e, j.object_);
        if table.Some? then Some(Table(table.value)) else None
    case Object(_, fields) =>
      if !j.JObject? then None
      else
        var read := UnwrapFields(t, prior, j.object_, |fields|);
        if read.Some? then Some(Record(read.value)) else None
  }

  function UnwrapItems(e: Type, elements: seq<Json>, n: nat): (r: Option<seq<Val>>)
    requires n <= |elements|
    ensures r.Some? ==> |r.value| == n
    decreases e, 1, n
  {
    if n == 0 then Some([])
    else
      var rest := UnwrapItems(e, elements, n - 1);
      var item := Unwrap(e, Default(e), elements[n - 1]);
      if rest.Some? && item.Some? then Some(rest.value + [item.value]) else None
  }

  function UnwrapMembers(e: Type, before: (Val, Val) -> bool, elements: seq<Json>, n: nat): Option<seq<Val>>
    requires n <= |elements|
    decreases e, 1, n
  {
    if n == 0 then Some([])
    else
      var rest := UnwrapMembers(e, before, elements, n - 1);
      var item := Unwrap(e, Default(e), elements[n - 1]);
      if rest.Some? && item.Some? then Some(Inserted(rest.value, item.value, before)) else None
  }

  function UnwrapTable(e: Type, object_: map<string, Json>): (r: Option<map<string, Val>>)
    ensures r.Some? ==> r.value.Keys == object_.Keys
    ensures r.Some? ==> forall k :: k in object_ ==> Unwrap(e, Default(e), object_[k]) == Some(r.value[k])
    ensures r.None? ==> exists k :: k in object_ && Unwrap(e, Default(e), object_[k]).None?
    decreases e, 1
  {
    if exists k :: k in object_ && Unwrap(e, Default(e), object_[k]).None? then None
    else Some(map k | k in object_ :: Unwrap(e, Default(e), object_[k]).value)
  }

  function PriorField(prior: Val, i: nat, f: Field): Val {
    if prior.Record? && i < |prior.fields| then prior.fields[i] else f.def
  }

  // The first n fields.
  function UnwrapFields(t: Type, prior: Val, object_: map<string, Json>, n: nat): (r: Option<seq<Val>>)
    requires t.Object? && n <= |t.fields|
    ensures r.Some? ==> |r.value| == n
    decreases t, 0, n
  {
    if n == 0 then Some([])
    else
      var rest := UnwrapFields(t, prior, object_, n - 1);
      var field := UnwrapField(t, prior, object_, n - 1);
      if rest.Some? && field.Some? then Some(rest.value + [field.value]) else None
  }

  // transfer_field: the flags decide about fields that are missing or null.
  function UnwrapField(t: Type, prior: Val, object_: map<string, Json>, i: nat): Option<Val>
    requires t.Object? && i < |t.fields|
    decreases t, 0, i
  {
    var f := t.fields[i];
    var old_ := PriorField(prior, i, f);
    if f.name !in object_ then if f.strict then None else if f.noDefault then Some(old_) else Some(f.def)
    else if object_[f.name].JNull? then
      if !f.allowNull then None else if f.noDefault then Some(old_) else Some(f.def)
    else Unwrap(f.fieldType, old_, object_[f.name])
  }

  // ---------------------------------------------------------------------------------------------- the round trip

  // Nothing was put into the JSON value.
  predicate WrapsToNull(t: Type, v: Val)
    requires HasType(t, v)
  {
    match t
    case VectorOf(_) => v.items == []
    case SetOf(_, _) => v.members == []
    case MapOf(_) => v.table == map[]
    case Object(version, fields) => version == 0 && fields == []
    case _ => false
  }

  // What survives: every container has something in it, every object has a field or a version, except that a field
  // may be null if it is allowed to be and then gets back the value it has.
  predicate Survives(t: Type, v: Val, prior: Val)
    requires HasType(t, v)
    decreases t, 0
  {
    && !WrapsToNull(t, v)
    && match t
       case VectorOf(e) => forall i :: 0 <= i < |v.items| ==> Survives(e, v.items[i], Default(e))
       case SetOf(e, _) => forall i :: 0 <= i < |v.members| ==> Survives(e, v.members[i], Default(e))
       case MapOf(e) => forall k :: k in v.table ==> Survives(e, v.table[k], Default(e))
       case Object(_, fields) => forall i :: 0 <= i < |fields| ==> FieldSurvives(t, v, prior, i)
       case _ => true
  }

  predicate FieldSurvives(t: Type, v: Val, prior: Val, i: nat)
    requires t.Object? && HasType(t, v) && i < |t.fields|
    decreases t, 0, i
  {
    var f := t.fields[i];
    if WrapsToNull(f.fieldType, v.fields[i]) then
      f.allowNull && v.fields[i] == if f.noDefault then PriorField(prior, i, f) else f.def
    else Survives(f.fieldType, v.fields[i], PriorField(prior, i, f))
  }

  lemma WrapNull(t: Type, v: Val)
    requires HasType(t, v)
    ensures Wrap(t, v) == JNull <==> WrapsToNull(t, v)
  {
    match t
    case MapOf(e) =>
      if v.table != map[] {
        var k :| k in v.table;
        assert k in WrapTable(e, v.table);
      }
    case Object(version, fields) =>
      if |fields| > 0 {
        assert fields[|fields| - 1].name in WrapFields(t, v, |fields|);
      } else if version != 0 {
        assert "_ver" in WrapFields(t, v, 0);
      }
    case _ =>
  }

  lemma {:induction false} FieldIn(t: Type, v: Val, n: nat, i: nat)
    requires WellFormed(t) && t.Object? && HasType(t, v) && i < n <= |t.fields|
    ensures t.fields[i].name in WrapFields(t, v, n)
    ensures WrapFields(t, v, n)[t.fields[i].name] == Wrap(t.fields[i].fieldType, v.fields[i])
  {
    if i < n - 1 {
      FieldIn(t, v, n - 1, i);
    }
  }

  lemma NarrowedFits(t: Type, n: int)
    requires (t.Signed? || t.Unsigned?) && HasType(t, Number(n))
    ensures Narrowed(t, n) == n
  {
    Pow2Positive(t.bits);
    var p := Pow2(t.bits);
    if n >= 0 {
      Layout.DivMod(0, n, p);
    } else {
      Layout.DivMod(-1, n + p, p);
    }
  }

  // What wrapping and unwrapping makes of a value.
  ghost predicate ComesBack(t: Type, v: Val, prior: Val)
    requires HasType(t, v)
  {
    Unwrap(t, prior, Wrap(t, v)) == Some(v)
  }

  lemma Snoc(a: seq<Val>, x: Val, s: seq<Val>, n: nat)
    requires 0 < n <= |s| && |a| == n - 1
    ensures a + [x] == s[..n] <==> a == s[..n - 1] && x == s[n - 1]
  {
    assert s[..n] == s[..n - 1] + [s[n - 1]];
    if a + [x] == s[..n] {
      assert a == (a + [x])[..n - 1] && x == (a + [x])[n - 1];
    }
  }

  lemma {:induction false} UnwrapItemsIs(e: Type, elements: seq<Json>, items: seq<Val>, n: nat)
    requires n <= |elements| == |items|
    ensures UnwrapItems(e, elements, n) == Some(items[..n]) <==>
              forall i :: 0 <= i < n ==> Unwrap(e, Default(e), elements[i]) == Some(items[i])
  {
    if n > 0 {
      UnwrapItemsIs(e, elements, items, n - 1);
      var rest, item := UnwrapItems(e, elements, n - 1), Unwrap(e, Default(e), elements[n - 1]);
      if rest.Some? && item.Some? {
        Snoc(rest.value, item.value, items, n);
      }
    }
  }

  lemma ItemsComeBack(e: Type, items: seq<Val>)
    requires forall i :: 0 <= i < |items| ==> HasType(e, items[i])
    ensures UnwrapItems(e, WrapItems(e, items), |items|) == Some(items) <==>
              forall i :: 0 <= i < |items| ==> ComesBack(e, items[i], Default(e))
  {
    var elements := WrapItems(e, items);
    UnwrapItemsIs(e, elements, items, |items|);
    assert items[..|items|] == items;
    forall i | 0 <= i < |items|
      ensures Unwrap(e, Default(e), elements[i]) == Some(items[i]) <==> ComesBack(e, items[i], Default(e))
    {
      assert elements[i] == Wrap(e, items[i]);
    }
  }

  // Inserting an ascending sequence one by one gives it back.
  lemma InsertedLast(members: seq<Val>, before: (Val, Val) -> bool, n: nat)
    requires 0 < n <= |members| && Ascending(members, before)
    ensures Inserted(members[..n - 1], members[n - 1], before) == members[..n]
  {
    assert members[..n] == members[..n - 1] + [members[n - 1]];
    if n > 1 {
      assert before(members[n - 2], members[n - 2 + 1]);
      assert members[..n - 1][n - 2] == members[n - 2];
    }
  }

  lemma {:induction false} UnwrapMembersIs(e: Type, before: (Val, Val) -> bool, elements: seq<Json>,
                                           members: seq<Val>, n: nat)
    requires n <= |elements| == |members| && Ascending(members, before)
    requires forall i :: 0 <= i < |members| ==> Unwrap(e, Default(e), elements[i]) == Some(members[i])
    ensures UnwrapMembers(e, before, elements, n) == Some(members[..n])
  {
    if n > 0 {
      UnwrapMembersIs(e, before, elements, members, n - 1);
      InsertedLast(members, before, n);
      assert Unwrap(e, Default(e), elements[n - 1]) == Some(members[n - 1]);
    }
  }

  lemma MembersComeBack(e: Type, before: (Val, Val) -> bool, members: seq<Val>)
    requires Ascending(members, before)
    requires forall i :: 0 <= i < |members| ==> HasType(e, members[i])
    requires forall i :: 0 <= i < |members| ==> ComesBack(e, members[i], Default(e))
    ensures UnwrapMembers(e, before, WrapItems(e, members), |members|) == Some(members)
  {
    var elements := WrapItems(e, members);
    forall i | 0 <= i < |members| ensures Unwrap(e, Default(e), elements[i]) == Some(members[i]) {
      assert ComesBack(e, members[i], Default(e)) && elements[i] == Wrap(e, members[i]);
    }
    UnwrapMembersIs(e, before, elements, members, |members|);
    assert members[..|members|] == members;
  }

  lemma FieldComesBack(t: Type, v: Val, prior: Val, i: nat)
    requires WellFormed(t) && t.Object? && HasType(t, v) && i < |t.fields|
    ensures var f := t.fields[i];
            UnwrapField(t, prior, WrapFields(t, v, |t.fields|), i) == Some(v.fields[i]) <==>
              if WrapsToNull(f.fieldType, v.fields[i]) then FieldSurvives(t, v, prior, i)
              else ComesBack(f.fieldType, v.fields[i], PriorField(prior, i, f))
  {
    FieldIn(t, v, |t.fields|, i);
    WrapNull(t.fields[i].fieldType, v.fields[i]);
  }

  lemma {:induction false} UnwrapFieldsIs(t: Type, prior: Val, o: map<string, Json>, vals: seq<Val>, n: nat)
    requires t.Object? && n <= |t.fields| == |vals|
    ensures UnwrapFields(t, prior, o, n) == Some(vals[..n]) <==>
              forall i :: 0 <= i < n ==> UnwrapField(t, prior, o, i) == Some(vals[i])
  {
    if n > 0 {
      UnwrapFieldsIs(t, prior, o, vals, n - 1);
      var rest, field := UnwrapFields(t, prior, o, n - 1), UnwrapField(t, prior, o, n - 1);
      if rest.Some? && field.Some? {
        Snoc(rest.value, field.value, vals, n);
        assert UnwrapFields(t, prior, o, n) == Some(rest.value + [field.value]);
      } else if rest.None? {
        var i :| 0 <= i < n - 1 && UnwrapField(t, prior, o, i) != Some(vals[i]);
      } else {
        assert UnwrapField(t, prior, o, n - 1) != Some(vals[n - 1]);
      }
    }
  }

  lemma FieldsComeBack(t: Type, v: Val, prior: Val)
    requires t.Object? && HasType(t, v)
    ensures var o := WrapFields(t, v, |t.fields|);
            UnwrapFields(t, prior, o, |t.fields|) == Some(v.fields) <==>
              forall i :: 0 <= i < |t.fields| ==> UnwrapField(t, prior, o, i) == Some(v.fields[i])
  {
    UnwrapFieldsIs(t, prior, WrapFields(t, v, |t.fields|), v.fields, |t.fields|);
    assert v.fields[..|t.fields|] == v.fields;
  }

  lemma TableWraps(e: Type, table: map<string, Val>)
    requires HasType(MapOf(e), Table(table)) && table != map[]
    ensures Wrap(MapOf(e), Table(table)) == JObject(WrapTable(e, table))
  {
    WrapNull(MapOf(e), Table(table));
  }

  lemma TableComesBack(e: Type, table: map<string, Val>, prior: Val)
    requires HasType(MapOf(e), Table(table)) && table != map[]
    requires forall k :: k in table ==> ComesBack(e, table[k], Default(e))
    ensures ComesBack(MapOf(e), Table(table), prior)
  {
    var o := WrapTable(e, table);
    TableWraps(e, table);
    forall k | k in o ensures Unwrap(e, Default(e), o[k]) == Some(table[k]) {
      assert ComesBack(e, table[k], Default(e));
    }
    SameTable(e, o, table);
  }

  lemma SameTable(e: Type, o: map<string, Json>, table: map<string, Val>)
    requires o.Keys == table.Keys && forall k :: k in o ==> Unwrap(e, Default(e), o[k]) == Some(table[k])
    ensures UnwrapTable(e, o) == Some(table)
  {
    var read := UnwrapTable(e, o);
    if read.Some? {
      assert read.value.Keys == table.Keys;
      forall k | k in table ensures k in read.value && read.value[k] == table[k] {
        assert k in o.Keys && k in read.value.Keys;
        assert Unwrap(e, Default(e), o[k]) == Some(table[k]);
      }
      assert read.value == table;
    }
  }

  lemma EntryComesBack(e: Type, table: map<string, Val>, prior: Val, k: string)
    requires HasType(MapOf(e), Table(table)) && k in table && ComesBack(MapOf(e), Table(table), prior)
    ensures ComesBack(e, table[k], Default(e))
  {
    var o := WrapTable(e, table);
    TableWraps(e, table);
    assert UnwrapTable(e, o) == Some(table);
    assert Unwrap(e, Default(e), o[k]) == Some(table[k]);
  }

  // Every value that survives comes back, for any type and any value read into.
  lemma {:induction false} RoundTrip(t: Type, v: Val, prior: Val)
    requires WellFormed(t) && HasType(t, v) && Survives(t, v, prior)
    ensures ComesBack(t, v, prior)
    decreases t
  {
    match t
    case Signed(_) => NarrowedFits(t, v.n);
    case Unsigned(_) => NarrowedFits(t, v.n);
    case VectorOf(e) =>
      forall i | 0 <= i < |v.items| ensures ComesBack(e, v.items[i], Default(e)) {
        RoundTrip(e, v.items[i], Default(e));
      }
      ItemsComeBack(e, v.items);
    case SetOf(e, before) =>
      forall i | 0 <= i < |v.members| ensures ComesBack(e, v.members[i], Default(e)) {
        RoundTrip(e, v.members[i], Default(e));
      }
      MembersComeBack(e, before, v.members);
    case MapOf(e) =>
      forall k | k in v.table ensures ComesBack(e, v.table[k], Default(e)) {
        RoundTrip(e, v.table[k], Default(e));
      }
      TableComesBack(e, v.table, prior);
    case Object(_, fields) =>
      forall i | 0 <= i < |fields|
        ensures UnwrapField(t, prior, WrapFields(t, v, |fields|), i) == Some(v.fields[i])
      {
        assert FieldSurvives(t, v, prior, i);
        FieldComesBack(t, v, prior, i);
        if !WrapsToNull(fields[i].fieldType, v.fields[i]) {
          RoundTrip(fields[i].fieldType, v.fields[i], PriorField(prior, i, fields[i]));
        }
      }
      WrapNull(t, v);
      FieldsComeBack(t, v, prior);
    case _ =>
  }

  // ---------------------------------------------------------------------------------------------- reading again

  // Wrapping a and reading it over `prior` gives b.
  predicate ReadsAs(t: Type, prior: Val, a: Val, b: Val) {
    HasType(t, a) && Unwrap(t, prior, Wrap(t, a)) == Some(b)
  }

  // Each value is read from the one before it.
  ghost predicate Chain(t: Type, prior: Val, c: seq<Val>) {
    forall i :: 0 <= i < |c| - 1 ==> ReadsAs(t, prior, c[i], c[i + 1])
  }

  // How often a value can change when it is read again and again: once for every object around a field.
  function Depth(t: Type): nat
    decreases t, 0
  {
    match t
    case VectorOf(e) => Depth(e)
    case SetOf(e, _) => Depth(e)
    case MapOf(e) => Depth(e)
    case Object(_, fields) => 1 + DepthOfFields(t, |fields|)
    case _ => 0
  }

  function DepthOfFields(t: Type, n: nat): (d: nat)
    requires t.Object? && n <= |t.fields|
    ensures forall i :: 0 <= i < n ==> Depth(t.fields[i].fieldType) <= d
    decreases t, 0, n
  {
    if n == 0 then 0
    else
      var d, rest := Depth(t.fields[n - 1].fieldType), DepthOfFields(t, n - 1);
      if d > rest then d else rest
  }

  lemma ItemsReadAs(e: Type, prior: Val, a: Val, b: Val)
    requires ReadsAs(VectorOf(e), prior, a, b)
    ensures b.Items? && |b.items| == |a.items| > 0
    ensures forall k :: 0 <= k < |a.items| ==> ReadsAs(e, Default(e), a.items[k], b.items[k])
  {
    var elements := WrapItems(e, a.items);
    ItemsRead(e, elements, |elements|);
    forall k | 0 <= k < |a.items| ensures ReadsAs(e, Default(e), a.items[k], b.items[k]) {
      assert elements[k] == Wrap(e, a.items[k]);
    }
  }

  lemma EntriesReadAs(e: Type, prior: Val, a: Val, b: Val)
    requires ReadsAs(MapOf(e), prior, a, b)
    ensures b.Table? && b.table.Keys == a.table.Keys && a.table != map[]
    ensures forall k :: k in a.table ==> ReadsAs(e, Default(e), a.table[k], b.table[k])
  {
    var o := WrapTable(e, a.table);
    WrapNull(MapOf(e), a);
    assert UnwrapTable(e, o) == Some(b.table);
    forall k | k in a.table ensures ReadsAs(e, Default(e), a.table[k], b.table[k]) {
      assert k in o && o[k] == Wrap(e, a.table[k]);
      assert Unwrap(e, Default(e), o[k]) == Some(b.table[k]);
    }
  }

  // What a null field gets.
  function Fallback(prior: Val, i: nat, f: Field): Val {
    if f.noDefault then PriorField(prior, i, f) else f.def
  }

  predicate FieldReadsAs(ft: Type, fallback: Val, prior: Val, a: Val, b: Val) {
    HasType(ft, a) && if WrapsToNull(ft, a) then b == fallback else ReadsAs(ft, prior, a, b)
  }

  lemma FieldsReadAs(t: Type, prior: Val, a: Val, b: Val, i: nat)
    requires WellFormed(t) && t.Object? && ReadsAs(t, prior, a, b) && i < |t.fields|
    ensures b.Record? && |b.fields| == |t.fields|
    ensures var f := t.fields[i];
            FieldReadsAs(f.fieldType, Fallback(prior, i, f), PriorField(prior, i, f), a.fields[i], b.fields[i])
  {
    var o := WrapFields(t, a, |t.fields|);
    WrapNull(t, a);
    FieldsRead(t, prior, o, |t.fields|);
    FieldIn(t, a, |t.fields|, i);
    WrapNull(t.fields[i].fieldType, a.fields[i]);
    assert UnwrapField(t, prior, o, i) == Some(b.fields[i]);
  }

  lemma {:induction false} MemberFrom(e: Type, before: (Val, Val) -> bool, elements: seq<Json>, n: nat, y: Val)
    returns (i: nat)
    requires n <= |elements| && UnwrapMembers(e, before, elements, n).Some?
    requires y in UnwrapMembers(e, before, elements, n).value
    ensures i < n && Unwrap(e, Default(e), elements[i]) == Some(y)
  {
    var rest, item := UnwrapMembers(e, before, elements, n - 1).value, Unwrap(e, Default(e), elements[n - 1]).value;
    InsertedFrom(rest, item, before);
    if y == item {
      i := n - 1;
    } else {
      i := MemberFrom(e, before, elements, n - 1, y);
    }
  }

  lemma {:induction false} InsertedFrom(s: seq<Val>, x: Val, before: (Val, Val) -> bool)
    ensures forall v :: v in Inserted(s, x, before) ==> v in s || v == x
    ensures Inserted(s, x, before) != []
  {
    if s != [] {
      InsertedFrom(s[..|s| - 1], x, before);
    }
  }

  lemma {:induction false} AllMembersRead(e: Type, before: (Val, Val) -> bool, elements: seq<Json>, n: nat, i: nat)
    requires i < n <= |elements| && UnwrapMembers(e, before, elements, n).Some?
    ensures Unwrap(e, Default(e), elements[i]).Some? && UnwrapMembers(e, before, elements, n).value != []
  {
    InsertedFrom(UnwrapMembers(e, before, elements, n - 1).value,
                 Unwrap(e, Default(e), elements[n - 1]).value, before);
    if i < n - 1 {
      AllMembersRead(e, before, elements, n - 1, i);
    }
  }

  // The members of a set that is read are read from members, and every member is read as something.
  lemma SourceOf(e: Type, before: (Val, Val) -> bool, prior: Val, a: Val, b: Val, y: Val) returns (x: Val)
    requires ReadsAs(SetOf(e, before), prior, a, b) && b.Members? && y in b.members
    ensures x in a.members && ReadsAs(e, Default(e), x, y)
  {
    var elements := WrapItems(e, a.members);
    var i := MemberFrom(e, before, elements, |elements|, y);
    x := a.members[i];
    assert elements[i] == Wrap(e, x);
  }

  lemma MemberIsRead(e: Type, before: (Val, Val) -> bool, prior: Val, a: Val, b: Val, x: Val) returns (y: Val)
    requires ReadsAs(SetOf(e, before), prior, a, b) && x in a.members
    ensures ReadsAs(e, Default(e), x, y)
  {
    var elements := WrapItems(e, a.members);
    var i :| 0 <= i < |a.members| && a.members[i] == x;
    AllMembersRead(e, before, elements, |elements|, i);
    assert elements[i] == Wrap(e, x);
    y := Unwrap(e, Default(e), elements[i]).value;
  }

  // A value that is not null is not read as one that is.
  lemma StaysFilled(t: Type, prior: Val, a: Val, b: Val)
    requires WellFormed(t) && ReadsAs(t, prior, a, b) && HasType(t, b)
    ensures !WrapsToNull(t, a) && !WrapsToNull(t, b)
  {
    WrapNull(t, a);
    match t
    case VectorOf(e) => ItemsReadAs(e, prior, a, b);
    case MapOf(e) => EntriesReadAs(e, prior, a, b);
    case SetOf(e, before) =>
      AllMembersRead(e, before, WrapItems(e, a.members), |a.members|, 0);
    case _ =>
  }

  // ---------------------------------------------------------------------------------------------- settling

  lemma {:induction false} LengthsStay(e: Type, prior: Val, c: seq<Val>, j: nat)
    requires Chain(VectorOf(e), prior, c) && |c| > 1 && j < |c|
    ensures c[0].Items? && c[j].Items? && |c[j].items| == |c[0].items|
  {
    if j == 0 {
      assert ReadsAs(VectorOf(e), prior, c[0], c[0 + 1]);
    } else {
      LengthsStay(e, prior, c, j - 1);
      assert ReadsAs(VectorOf(e), prior, c[j - 1], c[j - 1 + 1]);
      ItemsReadAs(e, prior, c[j - 1], c[j]);
    }
  }

  lemma {:induction false} KeysStay(e: Type, prior: Val, c: seq<Val>, j: nat)
    requires Chain(MapOf(e), prior, c) && |c| > 1 && j < |c|
    ensures c[0].Table? && c[j].Table? && c[j].table.Keys == c[0].table.Keys
  {
    if j == 0 {
      assert ReadsAs(MapOf(e), prior, c[0], c[0 + 1]);
    } else {
      KeysStay(e, prior, c, j - 1);
      assert ReadsAs(MapOf(e), prior, c[j - 1], c[j - 1 + 1]);
      EntriesReadAs(e, prior, c[j - 1], c[j]);
    }
  }

  lemma ItemChain(e: Type, prior: Val, c: seq<Val>, k: nat) returns (d: seq<Val>)
    requires Chain(VectorOf(e), prior, c) && |c| > 1 && c[0].Items? && k < |c[0].items|
    ensures |d| == |c| && Chain(e, Default(e), d)
    ensures forall j :: 0 <= j < |c| ==> c[j].Items? && k < |c[j].items| && d[j] == c[j].items[k]
  {
    forall j | 0 <= j < |c| ensures c[j].Items? && |c[j].items| == |c[0].items| {
      LengthsStay(e, prior, c, j);
    }
    d := seq(|c|, j requires 0 <= j < |c| => c[j].items[k]);
    forall j | 0 <= j < |d| - 1 ensures ReadsAs(e, Default(e), d[j], d[j + 1]) {
      assert ReadsAs(VectorOf(e), prior, c[j], c[j + 1]);
      ItemsReadAs(e, prior, c[j], c[j + 1]);
    }
  }

  lemma EntryChain(e: Type, prior: Val, c: seq<Val>, k: string) returns (d: seq<Val>)
    requires Chain(MapOf(e), prior, c) && |c| > 1 && c[0].Table? && k in c[0].table
    ensures |d| == |c| && Chain(e, Default(e), d)
    ensures forall j :: 0 <= j < |c| ==> c[j].Table? && k in c[j].table && d[j] == c[j].table[k]
  {
    forall j | 0 <= j < |c| ensures c[j].Table? && k in c[j].table {
      KeysStay(e, prior, c, j);
      assert k in c[0].table.Keys;
    }
    d := seq(|c|, j requires 0 <= j < |c| => c[j].table[k]);
    forall j | 0 <= j < |d| - 1 ensures ReadsAs(e, Default(e), d[j], d[j + 1]) {
      assert ReadsAs(MapOf(e), prior, c[j], c[j + 1]);
      EntriesReadAs(e, prior, c[j], c[j + 1]);
    }
  }

  lemma SourceInChain(e: Type, before: (Val, Val) -> bool, prior: Val, c: seq<Val>, j: nat, y: Val) returns (x: Val)
    requires Chain(SetOf(e, before), prior, c) && 0 < j < |c| && c[j].Members? && y in c[j].members
    ensures c[j - 1].Members? && x in c[j - 1].members && ReadsAs(e, Default(e), x, y)
  {
    assert ReadsAs(SetOf(e, before), prior, c[j - 1], c[j - 1 + 1]);
    x := SourceOf(e, before, prior, c[j - 1], c[j], y);
  }

  ghost predicate HasSource(step: (Val, Val) -> bool, from: seq<Val>, y: Val) {
    exists x :: x in from && step(x, y)
  }

  // Where a member of the j-th set came from, back to the first.
  lemma {:induction false} TraceBack(step: (Val, Val) -> bool, sets: seq<seq<Val>>, j: nat, y: Val)
    returns (d: seq<Val>)
    requires j < |sets| && y in sets[j]
    requires forall i, v :: 0 < i < |sets| && v in sets[i] ==> HasSource(step, sets[i - 1], v)
    ensures |d| == j + 1 && d[j] == y && forall i :: 0 <= i < j ==> step(d[i], d[i + 1])
    decreases j
  {
    if j == 0 {
      d := [y];
    } else {
      var x :| x in sets[j - 1] && step(x, y);
      var front := TraceBack(step, sets, j - 1, x);
      d := front + [y];
    }
  }

  lemma TraceThrough(step: (Val, Val) -> bool, sets: seq<seq<Val>>, x: Val, y: Val) returns (d: seq<Val>)
    requires sets != [] && x in sets[|sets| - 1] && step(x, y)
    requires forall i, v :: 0 < i < |sets| && v in sets[i] ==> HasSource(step, sets[i - 1], v)
    ensures |d| == |sets| + 1 && d[|d| - 2] == x && d[|d| - 1] == y
    ensures forall i :: 0 <= i < |d| - 1 ==> step(d[i], d[i + 1])
  {
    var front := TraceBack(step, sets, |sets| - 1, x);
    d := front + [y];
  }

  function Reading(e: Type): (Val, Val) -> bool {
    (a: Val, b: Val) => ReadsAs(e, Default(e), a, b)
  }

  lemma ChainOfMembers(e: Type, before: (Val, Val) -> bool, prior: Val, c: seq<Val>) returns (sets: seq<seq<Val>>)
    requires Chain(SetOf(e, before), prior, c) && |c| > 1
    ensures |sets| == |c| - 1 && forall i :: 0 <= i < |sets| ==> c[i] == Members(sets[i])
    ensures forall i, v :: 0 < i < |sets| && v in sets[i] ==> HasSource(Reading(e), sets[i - 1], v)
  {
    forall i | 0 <= i < |c| - 1 ensures c[i].Members? {
      assert ReadsAs(SetOf(e, before), prior, c[i], c[i + 1]);
    }
    sets := seq(|c| - 1, i requires 0 <= i < |c| - 1 => c[i].members);
    forall i, v | 0 < i < |sets| && v in sets[i] ensures HasSource(Reading(e), sets[i - 1], v) {
      var u := SourceInChain(e, before, prior, c, i, v);
      assert Reading(e)(u, v);
    }
  }

  lemma LinkedIsChain(e: Type, d: seq<Val>)
    requires forall i :: 0 <= i < |d| - 1 ==> Reading(e)(d[i], d[i + 1])
    ensures Chain(e, Default(e), d)
  {
    forall i | 0 <= i < |d| - 1 ensures ReadsAs(e, Default(e), d[i], d[i + 1]) {
      assert Reading(e)(d[i], d[i + 1]);
    }
  }

  // A member of the last set but one, with what it came from and what it is read as.
  lemma MemberChain(e: Type, before: (Val, Val) -> bool, prior: Val, c: seq<Val>, x: Val, y: Val)
    returns (d: seq<Val>)
    requires Chain(SetOf(e, before), prior, c) && |c| > 1 && c[|c| - 2].Members? && x in c[|c| - 2].members
    requires Reading(e)(x, y)
    ensures |d| == |c| && d[|d| - 2] == x && d[|d| - 1] == y && Chain(e, Default(e), d)
  {
    var sets := ChainOfMembers(e, before, prior, c);
    d := TraceThrough(Reading(e), sets, x, y);
    LinkedIsChain(e, d);
  }

  // Reading again and again comes to rest: the last value of a chain that is long enough is the one before it.
  lemma {:induction false} Settles(t: Type, prior: Val, c: seq<Val>)
    requires WellFormed(t) && Chain(t, prior, c) && |c| >= Depth(t) + 2
    ensures c[|c| - 1] == c[|c| - 2]
    decreases t, 0
  {
    var n := |c| - 2;
    assert ReadsAs(t, prior, c[n], c[n + 1]);
    match t
    case Signed(_) => NarrowedFits(t, c[n].n);
    case Unsigned(_) => NarrowedFits(t, c[n].n);
    case VectorOf(e) => ItemsSettle(e, prior, c);
    case SetOf(e, before) => MembersSettle(e, before, prior, c);
    case MapOf(e) => EntriesSettle(e, prior, c);
    case Object(_, _) => FieldsSettle(t, prior, c);
    case _ =>
  }

  lemma {:induction false} ItemsSettle(e: Type, prior: Val, c: seq<Val>)
    requires WellFormed(e) && Chain(VectorOf(e), prior, c) && |c| >= Depth(e) + 2
    ensures c[|c| - 1] == c[|c| - 2]
    decreases e, 1
  {
    var n := |c| - 2;
    LengthsStay(e, prior, c, n);
    LengthsStay(e, prior, c, n + 1);
    forall k | 0 <= k < |c[n].items| ensures c[n + 1].items[k] == c[n].items[k] {
      var d := ItemChain(e, prior, c, k);
      Settles(e, Default(e), d);
    }
  }

  lemma {:induction false} EntriesSettle(e: Type, prior: Val, c: seq<Val>)
    requires WellFormed(e) && Chain(MapOf(e), prior, c) && |c| >= Depth(e) + 2
    ensures c[|c| - 1] == c[|c| - 2]
    decreases e, 1
  {
    var n := |c| - 2;
    KeysStay(e, prior, c, n);
    KeysStay(e, prior, c, n + 1);
    forall k | k in c[n].table ensures k in c[n + 1].table && c[n + 1].table[k] == c[n].table[k] {
      assert k in c[n].table.Keys && k in c[n + 1].table.Keys && k in c[0].table.Keys;
      var d := EntryChain(e, prior, c, k);
      Settles(e, Default(e), d);
    }
    assert c[n + 1].table == c[n].table;
  }

  lemma {:induction false} MembersSettle(e: Type, before: (Val, Val) -> bool, prior: Val, c: seq<Val>)
    requires WellFormed(e) && Chain(SetOf(e, before), prior, c) && |c| >= Depth(e) + 2
    ensures c[|c| - 1] == c[|c| - 2] && c[|c| - 2].Members?
    ensures forall x :: x in c[|c| - 2].members ==> ReadsAs(e, Default(e), x, x)
    decreases e, 1
  {
    var n := |c| - 2;
    assert ReadsAs(SetOf(e, before), prior, c[n], c[n + 1]);
    forall x | x in c[n].members ensures ReadsAs(e, Default(e), x, x) {
      var y := MemberIsRead(e, before, prior, c[n], c[n + 1], x);
      var d := MemberChain(e, before, prior, c, x, y);
      Settles(e, Default(e), d);
    }
    forall i | 0 <= i < |c[n].members| ensures ComesBack(e, c[n].members[i], Default(e)) {
      assert ReadsAs(e, Default(e), c[n].members[i], c[n].members[i]);
    }
    MembersComeBack(e, before, c[n].members);
  }

  lemma {:induction false} FieldsSettle(t: Type, prior: Val, c: seq<Val>)
    requires WellFormed(t) && t.Object? && Chain(t, prior, c) && |c| >= DepthOfFields(t, |t.fields|) + 3
    ensures c[|c| - 1] == c[|c| - 2]
    decreases t, 0, 0
  {
    var n := |c| - 2;
    assert ReadsAs(t, prior, c[n], c[n + 1]);
    forall i | 0 <= i < |t.fields|
      ensures |c[n + 1].fields| == |c[n].fields| == |t.fields| && c[n + 1].fields[i] == c[n].fields[i]
    {
      FieldsReadAs(t, prior, c[n], c[n + 1], i);
      var d := FieldChain(t, prior, c, i);
      var f := t.fields[i];
      FieldSettles(f.fieldType, Fallback(prior, i, f), PriorField(prior, i, f), d);
    }
  }

  ghost predicate FieldChained(ft: Type, fallback: Val, prior: Val, d: seq<Val>) {
    forall j :: 0 <= j < |d| - 1 ==> FieldReadsAs(ft, fallback, prior, d[j], d[j + 1])
  }

  lemma FieldChain(t: Type, prior: Val, c: seq<Val>, i: nat) returns (d: seq<Val>)
    requires WellFormed(t) && t.Object? && Chain(t, prior, c) && |c| > 1 && i < |t.fields|
    ensures |d| == |c| && forall j :: 0 <= j < |c| ==> c[j].Record? && i < |c[j].fields| && d[j] == c[j].fields[i]
    ensures FieldChained(t.fields[i].fieldType, Fallback(prior, i, t.fields[i]), PriorField(prior, i, t.fields[i]), d)
  {
    forall j | 0 <= j < |c| ensures c[j].Record? && |c[j].fields| == |t.fields| {
      if j == 0 {
        assert ReadsAs(t, prior, c[0], c[0 + 1]);
      } else {
        assert ReadsAs(t, prior, c[j - 1], c[j - 1 + 1]);
        FieldsReadAs(t, prior, c[j - 1], c[j], i);
      }
    }
    d := seq(|c|, j requires 0 <= j < |c| => c[j].fields[i]);
    forall j | 0 <= j < |d| - 1
      ensures FieldReadsAs(t.fields[i].fieldType, Fallback(prior, i, t.fields[i]), PriorField(prior, i, t.fields[i]),
                           d[j], d[j + 1])
    {
      assert ReadsAs(t, prior, c[j], c[j + 1]);
      FieldsReadAs(t, prior, c[j], c[j + 1], i);
    }
  }

  // A field that is null gets its fallback; once it is not null it stays so.
  lemma {:induction false} FieldSettles(ft: Type, fallback: Val, prior: Val, d: seq<Val>)
    requires WellFormed(ft) && FieldChained(ft, fallback, prior, d) && |d| >= Depth(ft) + 3
    ensures d[|d| - 1] == d[|d| - 2]
    decreases ft, 1
  {
    assert FieldReadsAs(ft, fallback, prior, d[0], d[0 + 1]);
    if !WrapsToNull(ft, d[0]) {
      FilledChain(ft, fallback, prior, d);
      Settles(ft, prior, d);
      return;
    }
    assert FieldReadsAs(ft, fallback, prior, d[1], d[1 + 1]);
    if WrapsToNull(ft, fallback) {
      NullStays(ft, fallback, prior, d, |d| - 2);
      NullStays(ft, fallback, prior, d, |d| - 1);
    } else {
      var e := d[1..];
      assert forall j :: 0 <= j < |e| ==> e[j] == d[j + 1];
      forall j | 0 <= j < |e| - 1 ensures FieldReadsAs(ft, fallback, prior, e[j], e[j + 1]) {
        assert FieldReadsAs(ft, fallback, prior, d[j + 1], d[j + 1 + 1]);
      }
      FilledChain(ft, fallback, prior, e);
      Settles(ft, prior, e);
    }
  }

  lemma {:induction false} NullStays(ft: Type, fallback: Val, prior: Val, d: seq<Val>, j: nat)
    requires HasType(ft, fallback) && FieldChained(ft, fallback, prior, d) && 0 < j < |d|
    requires HasType(ft, d[0]) && WrapsToNull(ft, d[0]) && WrapsToNull(ft, fallback)
    ensures d[j] == fallback
  {
    assert FieldReadsAs(ft, fallback, prior, d[j - 1], d[j - 1 + 1]);
    if j > 1 {
      NullStays(ft, fallback, prior, d, j - 1);
    }
  }

  lemma FilledChain(ft: Type, fallback: Val, prior: Val, d: seq<Val>)
    requires WellFormed(ft) && FieldChained(ft, fallback, prior, d) && |d| > 1
    requires HasType(ft, d[0]) && !WrapsToNull(ft, d[0])
    ensures Chain(ft, prior, d)
  {
    forall j | 0 <= j < |d| - 1 ensures ReadsAs(ft, prior, d[j], d[j + 1]) {
      FilledAt(ft, fallback, prior, d, j);
    }
  }

  lemma {:induction false} FilledAt(ft: Type, fallback: Val, prior: Val, d: seq<Val>, j: nat)
    requires WellFormed(ft) && FieldChained(ft, fallback, prior, d) && j < |d| - 1
    requires HasType(ft, d[0]) && !WrapsToNull(ft, d[0])
    ensures ReadsAs(ft, prior, d[j], d[j + 1])
  {
    assert FieldReadsAs(ft, fallback, prior, d[j], d[j + 1]);
    if j > 0 {
      FilledAt(ft, fallback, prior, d, j - 1);
      StaysFilled(ft, prior, d[j - 1], d[j]);
    }
  }

  // A set that comes back consists of members that do: each is read from another, and so on, which settles.
  lemma MembersComeBackToo(e: Type, before: (Val, Val) -> bool, v: Val, prior: Val)
    requires WellFormed(e) && HasType(SetOf(e, before), v) && ComesBack(SetOf(e, before), v, prior)
    ensures forall x :: x in v.members ==> ComesBack(e, x, Default(e))
  {
    var c := seq(Depth(e) + 2, _ => v);
    forall i | 0 <= i < |c| - 1 ensures ReadsAs(SetOf(e, before), prior, c[i], c[i + 1]) {
    }
    MembersSettle(e, before, prior, c);
    forall x | x in v.members ensures ComesBack(e, x, Default(e)) {
      assert ReadsAs(e, Default(e), x, x);
    }
  }

  // And nothing else does.
  lemma {:induction false} OnlySurvivorsComeBack(t: Type, v: Val, prior: Val)
    requires WellFormed(t) && HasType(t, v) && ComesBack(t, v, prior)
    ensures Survives(t, v, prior)
    decreases t
  {
    WrapNull(t, v);
    match t
    case VectorOf(e) =>
      ItemsComeBack(e, v.items);
      forall i | 0 <= i < |v.items| ensures Survives(e, v.items[i], Default(e)) {
        OnlySurvivorsComeBack(e, v.items[i], Default(e));
      }
    case SetOf(e, before) =>
      MembersComeBackToo(e, before, v, prior);
      forall i | 0 <= i < |v.members| ensures Survives(e, v.members[i], Default(e)) {
        assert v.members[i] in v.members;
        OnlySurvivorsComeBack(e, v.members[i], Default(e));
      }
    case MapOf(e) =>
      forall k | k in v.table ensures Survives(e, v.table[k], Default(e)) {
        EntryComesBack(e, v.table, prior, k);
        OnlySurvivorsComeBack(e, v.table[k], Default(e));
      }
    case Object(_, fields) =>
      FieldsComeBack(t, v, prior);
      forall i | 0 <= i < |fields| ensures FieldSurvives(t, v, prior, i) {
        FieldComesBack(t, v, prior, i);
        if !WrapsToNull(fields[i].fieldType, v.fields[i]) {
          OnlySurvivorsComeBack(fields[i].fieldType, v.fields[i], PriorField(prior, i, fields[i]));
        }
      }
    case _ =>
  }

  // Values without holes: no empty container, no object without fields and version.
  predicate Full(t: Type, v: Val)
    requires HasType(t, v)
    decreases t
  {
    && !WrapsToNull(t, v)
    && match t
       case VectorOf(e) => forall i :: 0 <= i < |v.items| ==> Full(e, v.items[i])
       case SetOf(e, _) => forall i :: 0 <= i < |v.members| ==> Full(e, v.members[i])
       case MapOf(e) => forall k :: k in v.table ==> Full(e, v.table[k])
       case Object(_, fields) => forall i :: 0 <= i < |fields| ==> Full(fields[i].fieldType, v.fields[i])
       case _ => true
  }

  lemma {:induction false} FullValuesSurvive(t: Type, v: Val, prior: Val)
    requires WellFormed(t) && HasType(t, v) && Full(t, v)
    ensures Survives(t, v, prior)
    decreases t
  {
    match t
    case VectorOf(e) =>
      forall i | 0 <= i < |v.items| ensures Survives(e, v.items[i], Default(e)) {
        FullValuesSurvive(e, v.items[i], Default(e));
      }
    case SetOf(e, _) =>
      forall i | 0 <= i < |v.members| ensures Survives(e, v.members[i], Default(e)) {
        FullValuesSurvive(e, v.members[i], Default(e));
      }
    case MapOf(e) =>
      forall k | k in v.table ensures Survives(e, v.table[k], Default(e)) {
        FullValuesSurvive(e, v.table[k], Default(e));
      }
    case Object(_, fields) =>
      forall i | 0 <= i < |fields| ensures FieldSurvives(t, v, prior, i) {
        FullValuesSurvive(fields[i].fieldType, v.fields[i], PriorField(prior, i, fields[i]));
      }
    case _ =>
  }

  // An empty container in a field comes back exactly if null is allowed there and stands for an empty container.
  lemma EmptyContainerInField(name: string, container: Type, def: Val, strict: bool, allowNull: bool, noDefault: bool,
                              prior: Val)
    requires WellFormed(container) && HasType(container, def)
    requires container.VectorOf? || container.SetOf? || container.MapOf?
    requires prior.Record? && |prior.fields| == 1
    ensures var t := Object(0, [Field(name, container, def, strict, allowNull, noDefault)]);
            ComesBack(t, Record([Default(container)]), prior) <==>
              allowNull && Default(container) == if noDefault then prior.fields[0] else def
  {
    var f := Field(name, container, def, strict, allowNull, noDefault);
    var t, v := Object(0, [f]), Record([Default(container)]);
    assert HasType(t, v);
    FieldComesBack(t, v, prior, 0);
    WrapNull(t, v);
    FieldsComeBack(t, v, prior);
  }

  // ---------------------------------------------------------------------------------------------- what is read

  // Narrowing keeps the value modulo the range of the native type.
  lemma NarrowedWraps(t: Type, n: int)
    requires (t.Signed? || t.Unsigned?) && WellFormed(t)
    ensures HasType(t, Number(Narrowed(t, n)))
    ensures Pow2(t.bits) > 0 && (n - Narrowed(t, n)) % Pow2(t.bits) == 0
  {
    Pow2Positive(t.bits);
    var p := Pow2(t.bits);
    var q := n / p;
    assert p * q + n % p == n;
    assert q * p + 0 == p * q && (q + 1) * p + 0 == p * q + p;
    Layout.DivMod(q, 0, p);
    Layout.DivMod(q + 1, 0, p);
    if t.Signed? {
      assert p == 2 * Pow2(t.bits - 1);
    }
  }

  // Insertion keeps a sequence ascending, and adds nothing but the element.
  lemma {:induction false} InsertedAscends(s: seq<Val>, x: Val, before: (Val, Val) -> bool)
    requires Ascending(s, before)
    ensures Ascending(Inserted(s, x, before), before)
    ensures forall v :: v in Inserted(s, x, before) ==> v in s || v == x
    ensures Inserted(s, x, before) != []
    ensures var r := Inserted(s, x, before); r[|r| - 1] == x || (s != [] && r[|r| - 1] == s[|s| - 1])
  {
    if s != [] {
      var front, last := s[..|s| - 1], s[|s| - 1];
      if before(last, x) {
      } else if before(x, last) {
        InsertedAscends(front, x, before);
        if front != [] {
          assert before(s[|s| - 2], s[|s| - 2 + 1]);
        }
      }
    }
  }

  lemma {:induction false} ItemsRead(e: Type, elements: seq<Json>, n: nat)
    requires n <= |elements| && UnwrapItems(e, elements, n).Some?
    ensures forall i :: 0 <= i < n ==>
              Unwrap(e, Default(e), elements[i]) == Some(UnwrapItems(e, elements, n).value[i])
  {
    if n > 0 {
      ItemsRead(e, elements, n - 1);
    }
  }

  lemma {:induction false} MembersRead(e: Type, before: (Val, Val) -> bool, elements: seq<Json>, n: nat)
    requires n <= |elements| && UnwrapMembers(e, before, elements, n).Some?
    requires forall i :: 0 <= i < n ==>
               Unwrap(e, Default(e), elements[i]).Some? ==> HasType(e, Unwrap(e, Default(e), elements[i]).value)
    ensures var r := UnwrapMembers(e, before, elements, n).value;
            Ascending(r, before) && forall v :: v in r ==> HasType(e, v)
  {
    if n > 0 {
      MembersRead(e, before, elements, n - 1);
      InsertedAscends(UnwrapMembers(e, before, elements, n - 1).value,
                      Unwrap(e, Default(e), elements[n - 1]).value, before);
    }
  }

  lemma {:induction false} FieldsRead(t: Type, prior: Val, object_: map<string, Json>, n: nat)
    requires t.Object? && n <= |t.fields| && UnwrapFields(t, prior, object_, n).Some?
    ensures forall i :: 0 <= i < n ==>
              UnwrapField(t, prior, object_, i) == Some(UnwrapFields(t, prior, object_, n).value[i])
  {
    if n > 0 {
      FieldsRead(t, prior, object_, n - 1);
    }
  }

  // Whatever JSON is read, what is read has the type: values in range, sets in order, all fields present.
  lemma {:induction false} ReadValuesAreTyped(t: Type, prior: Val, j: Json)
    requires WellFormed(t) && HasType(t, prior) && Unwrap(t, prior, j).Some?
    ensures HasType(t, Unwrap(t, prior, j).value)
    decreases t
  {
    match t
    case Signed(_) => NarrowedWraps(t, AsInt64(j).value);
    case Unsigned(_) => NarrowedWraps(t, AsUInt64(j).value);
    case VectorOf(e) =>
      var items := UnwrapItems(e, j.elements, |j.elements|).value;
      ItemsRead(e, j.elements, |j.elements|);
      forall i | 0 <= i < |items| ensures HasType(e, items[i]) {
        DefaultHasType(e);
        ReadValuesAreTyped(e, Default(e), j.elements[i]);
      }
    case SetOf(e, before) =>
      forall i | 0 <= i < |j.elements| && Unwrap(e, Default(e), j.elements[i]).Some?
        ensures HasType(e, Unwrap(e, Default(e), j.elements[i]).value)
      {
        DefaultHasType(e);
        ReadValuesAreTyped(e, Default(e), j.elements[i]);
      }
      MembersRead(e, before, j.elements, |j.elements|);
    case MapOf(e) =>
      var table := UnwrapTable(e, j.object_).value;
      forall k | k in table ensures HasType(e, table[k]) {
        assert k in table.Keys && k in j.object_;
        DefaultHasType(e);
        ReadValuesAreTyped(e, Default(e), j.object_[k]);
      }
    case Object(_, fields) =>
      var read := UnwrapFields(t, prior, j.object_, |fields|).value;
      FieldsRead(t, prior, j.object_, |fields|);
      forall i | 0 <= i < |fields| ensures HasType(fields[i].fieldType, read[i]) {
        var f := fields[i];
        assert UnwrapField(t, prior, j.object_, i) == Some(read[i]);
        if f.name in j.object_ && !j.object_[f.name].JNull? {
          ReadValuesAreTyped(f.fieldType, PriorField(prior, i, f), j.object_[f.name]);
        }
      }
    case _ =>
  }

  // The array j holds the forms of the values, in their order.
  predicate ElementsAre(e: Type, values: seq<Val>, j: Json)
    requires forall i :: 0 <= i < |values| ==> HasType(e, values[i])
  {
    j.JArray? && |j.elements| == |values| && forall i :: 0 <= i < |values| ==> j.elements[i] == Wrap(e, values[i])
  }

  // The object j holds the form of each value under its key, and nothing else.
  predicate MembersAre(e: Type, table: map<string, Val>, j: Json)
    requires forall k :: k in table ==> HasType(e, table[k])
  {
    j.JObject? && j.object_.Keys == table.Keys && forall k :: k in table ==> j.object_[k] == Wrap(e, table[k])
  }

  // The object j holds the form of each field under its name, and the version unless a field has taken its place.
  predicate FieldsAre(t: Type, v: Val, j: Json)
    requires t.Object? && HasType(t, v)
  {
    && j.JObject?
    && (forall i :: 0 <= i < |t.fields| ==>
          && t.fields[i].name in j.object_
          && j.object_[t.fields[i].name] == Wrap(t.fields[i].fieldType, v.fields[i]))
    && ((t.version != 0 && forall i :: 0 <= i < |t.fields| ==> t.fields[i].name != "_ver") ==>
          "_ver" in j.object_ && j.object_["_ver"] == JUInt(t.version))
  }

  // The JSON forms: signed and unsigned integers, reals, booleans and strings as such, a container as an array or
  // object of as many elements, an object as its fields and its version.
  lemma Forms(t: Type, v: Val)
    requires WellFormed(t) && HasType(t, v)
    ensures t.Signed? ==> Wrap(t, v) == JInt(v.n)
    ensures t.Unsigned? ==> Wrap(t, v) == JUInt(v.n)
    ensures t.Real? ==> Wrap(t, v) == JReal(v.r)
    ensures t.Bool? ==> Wrap(t, v) == JBool(v.b)
    ensures t.String? ==> Wrap(t, v) == JString(v.s)
    ensures t.VectorOf? && v.items != [] ==> ElementsAre(t.elem, v.items, Wrap(t, v))
    ensures t.SetOf? && v.members != [] ==> ElementsAre(t.elem, v.members, Wrap(t, v))
    ensures t.MapOf? && v.table != map[] ==> MembersAre(t.elem, v.table, Wrap(t, v))
    ensures t.Object? && (t.version != 0 || t.fields != []) ==> FieldsAre(t, v, Wrap(t, v))
  {
    WrapNull(t, v);
    match t
    case MapOf(e) =>
      assert WrapTable(e, v.table).Keys == v.table.Keys;
    case Object(_, fields) =>
      forall i | 0 <= i < |fields|
        ensures fields[i].name in WrapFields(t, v, |fields|)
                && WrapFields(t, v, |fields|)[fields[i].name] == Wrap(fields[i].fieldType, v.fields[i])
      {
        FieldIn(t, v, |fields|, i);
      }
      if t.version != 0 && forall i :: 0 <= i < |fields| ==> fields[i].name != "_ver" {
        VersionStays(t, v, |fields|);
      }
    case _ =>
  }

  lemma {:induction false} VersionStays(t: Type, v: Val, n: nat)
    requires t.Object? && HasType(t, v) && n <= |t.fields| && t.version != 0
    requires forall i :: 0 <= i < |t.fields| ==> t.fields[i].name != "_ver"
    ensures "_ver" in WrapFields(t, v, n) && WrapFields(t, v, n)["_ver"] == JUInt(t.version)
  {
    if n > 0 {
      VersionStays(t, v, n - 1);
    }
  }

  // Of the JSON numbers, a signed type takes those below 2 to the 63 and an unsigned one those that are not negative;
  // both keep the low bits, so that a number of their own width is read as it is.  A real takes every number.
  lemma NumbersRead(t: Type, prior: Val, j: Json)
    requires t.Signed? || t.Unsigned? || t.Real?
    ensures Unwrap(t, prior, j).Some? <==>
              if t.Signed? then j.JInt? || (j.JUInt? && j.n < 0x8000_0000_0000_0000)
              else if t.Unsigned? then j.JUInt? || (j.JInt? && j.n >= 0)
              else j.JInt? || j.JUInt? || j.JReal?
    ensures !t.Real? && Unwrap(t, prior, j).Some? && HasType(t, Number(j.n)) ==>
              Unwrap(t, prior, j) == Some(Number(j.n))
    ensures t.Real? && j.JReal? ==> Unwrap(t, prior, j) == Some(Float(j.r))
    ensures t.Real? && (j.JInt? || j.JUInt?) ==> Unwrap(t, prior, j) == Some(Float(j.n as real))
  {
    if !t.Real? && Unwrap(t, prior, j).Some? && HasType(t, Number(j.n)) {
      NarrowedFits(t, j.n);
    }
  }

  predicate AllReadable(e: Type, j: Json) {
    j.JArray? && forall i :: 0 <= i < |j.elements| ==> Unwrap(e, Default(e), j.elements[i]).Some?
  }

  predicate AllValuesReadable(e: Type, j: Json) {
    j.JObject? && forall k :: k in j.object_ ==> Unwrap(e, Default(e), j.object_[k]).Some?
  }

  ghost predicate HoldsWhatIsRead(t: Type, j: Json, v: Val) {
    match t
    case VectorOf(e) =>
      && v.Items? && j.JArray? && |v.items| == |j.elements|
      && forall i :: 0 <= i < |v.items| ==> Unwrap(e, Default(e), j.elements[i]) == Some(v.items[i])
    case SetOf(e, before) =>
      && v.Members? && j.JArray?
      && (forall y :: y in v.members ==> IsRead(e, j.elements, y))
      && (forall i :: 0 <= i < |j.elements| ==>
            var x := Unwrap(e, Default(e), j.elements[i]);
            x.Some? && (before(x.value, x.value) || HoldsAlike(v.members, x.value, before)))
    case MapOf(e) =>
      && v.Table? && j.JObject? && v.table.Keys == j.object_.Keys
      && forall k :: k in v.table ==> Unwrap(e, Default(e), j.object_[k]) == Some(v.table[k])
    case _ => false
  }

  ghost predicate IsRead(e: Type, elements: seq<Json>, y: Val) {
    exists i :: 0 <= i < |elements| && Unwrap(e, Default(e), elements[i]) == Some(y)
  }

  ghost predicate HoldsAlike(s: seq<Val>, x: Val, before: (Val, Val) -> bool) {
    exists y :: y in s && !before(x, y) && !before(y, x)
  }

  lemma {:induction false} ItemsReadable(e: Type, elements: seq<Json>, n: nat)
    requires n <= |elements|
    ensures UnwrapItems(e, elements, n).Some? <==>
              forall i :: 0 <= i < n ==> Unwrap(e, Default(e), elements[i]).Some?
  {
    if n > 0 {
      ItemsReadable(e, elements, n - 1);
    }
  }

  lemma {:induction false} MembersReadable(e: Type, before: (Val, Val) -> bool, elements: seq<Json>, n: nat)
    requires n <= |elements|
    ensures UnwrapMembers(e, before, elements, n).Some? <==>
              forall i :: 0 <= i < n ==> Unwrap(e, Default(e), elements[i]).Some?
  {
    if n > 0 {
      MembersReadable(e, before, elements, n - 1);
    }
  }

  // Insertion loses nothing, and leaves the element or one like it.
  lemma {:induction false} InsertedHolds(s: seq<Val>, x: Val, before: (Val, Val) -> bool)
    ensures forall y :: y in s ==> y in Inserted(s, x, before)
    ensures before(x, x) || HoldsAlike(Inserted(s, x, before), x, before)
  {
    if s == [] {
      assert x in Inserted(s, x, before);
    } else {
      var front, last := s[..|s| - 1], s[|s| - 1];
      assert s == front + [last];
      InsertedHolds(front, x, before);
      assert last in Inserted(s, x, before);
      if before(last, x) {
        assert x in Inserted(s, x, before);
      }
    }
  }

  lemma {:induction false} SetHolds(e: Type, before: (Val, Val) -> bool, elements: seq<Json>, n: nat, i: nat)
    requires i < n <= |elements| && UnwrapMembers(e, before, elements, n).Some?
    ensures var x := Unwrap(e, Default(e), elements[i]);
            && x.Some?
            && (before(x.value, x.value) || HoldsAlike(UnwrapMembers(e, before, elements, n).value, x.value, before))
  {
    InsertedHolds(UnwrapMembers(e, before, elements, n - 1).value,
                  Unwrap(e, Default(e), elements[n - 1]).value, before);
    if i < n - 1 {
      SetHolds(e, before, elements, n - 1, i);
    }
  }

  lemma SetHoldsWhatIsRead(e: Type, before: (Val, Val) -> bool, elements: seq<Json>)
    requires UnwrapMembers(e, before, elements, |elements|).Some?
    ensures HoldsWhatIsRead(SetOf(e, before), JArray(elements),
                            Members(UnwrapMembers(e, before, elements, |elements|).value))
  {
    var members := UnwrapMembers(e, before, elements, |elements|).value;
    forall y | y in members ensures IsRead(e, elements, y) {
      var i := MemberFrom(e, before, elements, |elements|, y);
    }
    forall i | 0 <= i < |elements|
      ensures var x := Unwrap(e, Default(e), elements[i]);
              x.Some? && (before(x.value, x.value) || HoldsAlike(members, x.value, before))
    {
      SetHolds(e, before, elements, |elements|, i);
    }
  }

  // A container is read exactly when it has the form of one and all it holds can be read.  A vector's items and a
  // map's values are then those read, each in its place.  A set holds nothing but what was read, and of everything
  // that was read either it or something that neither precedes.
  lemma ContainersRead(t: Type, prior: Val, j: Json)
    requires t.VectorOf? || t.SetOf? || t.MapOf?
    ensures Unwrap(t, prior, j).Some? <==> if t.MapOf? then AllValuesReadable(t.elem, j) else AllReadable(t.elem, j)
    ensures Unwrap(t, prior, j).Some? ==> HoldsWhatIsRead(t, j, Unwrap(t, prior, j).value)
  {
    match t
    case VectorOf(e) =>
      if j.JArray? {
        ItemsReadable(e, j.elements, |j.elements|);
        if Unwrap(t, prior, j).Some? {
          ItemsRead(e, j.elements, |j.elements|);
        }
      }
    case SetOf(e, before) =>
      if j.JArray? {
        MembersReadable(e, before, j.elements, |j.elements|);
        if Unwrap(t, prior, j).Some? {
          SetHoldsWhatIsRead(e, before, j.elements);
        }
      }
    case MapOf(_) =>
  }

  // A field that is not there makes the read fail if it is strict.  Otherwise, and likewise when it is null, which
  // fails unless null is allowed, it gets its default, or keeps what it had if it has none.
  lemma AbsentField(t: Type, prior: Val, object_: map<string, Json>, i: nat)
    requires t.Object? && i < |t.fields| && prior.Record? && |prior.fields| == |t.fields|
    requires t.fields[i].name !in object_ || object_[t.fields[i].name] == JNull
    ensures var f := t.fields[i];
            var fails := if f.name !in object_ then f.strict else !f.allowNull;
            && (fails ==> Unwrap(t, prior, JObject(object_)).None?)
            && (Unwrap(t, prior, JObject(object_)).Some? ==>
                  var v := Unwrap(t, prior, JObject(object_)).value;
                  && v.Record? && |v.fields| == |t.fields|
                  && v.fields[i] == if f.noDefault then prior.fields[i] else f.def)
  {
    var f := t.fields[i];
    if UnwrapFields(t, prior, object_, |t.fields|).Some? {
      FieldsRead(t, prior, object_, |t.fields|);
      assert UnwrapField(t, prior, object_, i).Some?;
    }
  }

  // ---------------------------------------------------------------------------------------------- the methods

  // Json::Value::append
  function Appended(j: Json, x: Json): Json {
    if j.JArray? then JArray(j.elements + [x]) else JArray([x])
  }

  // Json::Value::operator[] as the target of an assignment
  function Put(j: Json, name: string, x: Json): Json {
    if j.JObject? then JObject(j.object_[name := x]) else JObject(map[name := x])
  }

  method WrapArray(e: Type, items: seq<Val>) returns (j: Json)
    requires forall i :: 0 <= i < |items| ==> HasType(e, items[i])
    ensures j == ArrayOf(WrapItems(e, items))
    decreases e, 3
  {
    j := JNull;
    for i := 0 to |items|
      invariant j == ArrayOf(WrapItems(e, items)[..i])
    {
      var w := JsonWrap(e, items[i]);
      assert WrapItems(e, items)[..i + 1] == WrapItems(e, items)[..i] + [w];
      j := Appended(j, w);
    }
    assert WrapItems(e, items)[..|items|] == WrapItems(e, items);
  }

  lemma PutMember(members: map<string, Json>, k: string, x: Json)
    ensures Put(ObjectOf(members), k, x) == ObjectOf(members[k := x])
  {
    assert k in members[k := x];
  }

  predicate AllTyped(e: Type, table: map<string, Val>) {
    forall k :: k in table ==> HasType(e, table[k])
  }

  // Of the table, all but the given keys are wrapped.
  ghost predicate WrappedBut(e: Type, table: map<string, Val>, done: map<string, Json>, keys: set<string>)
    requires AllTyped(e, table)
  {
    && keys <= table.Keys && done.Keys == table.Keys - keys
    && forall k :: k in done ==> k in table && done[k] == Wrap(e, table[k])
  }

  lemma WrappedOneMore(e: Type, table: map<string, Val>, done: map<string, Json>, keys: set<string>, k: string)
    requires AllTyped(e, table) && WrappedBut(e, table, done, keys) && k in keys
    ensures k in table && WrappedBut(e, table, done[k := Wrap(e, table[k])], keys - {k})
  {
    assert done[k := Wrap(e, table[k])].Keys == done.Keys + {k};
  }

  lemma SameMembers(a: map<string, Json>, b: map<string, Json>)
    requires a.Keys == b.Keys && forall k :: k in a.Keys ==> a[k] == b[k]
    ensures a == b
  {
  }

  lemma WrappedAll(e: Type, table: map<string, Val>, done: map<string, Json>)
    requires AllTyped(e, table) && WrappedBut(e, table, done, {})
    ensures done == WrapTable(e, table)
  {
    assert done.Keys == table.Keys;
    SameMembers(done, WrapTable(e, table));
  }

  method WrapMap(e: Type, table: map<string, Val>) returns (j: Json)
    requires AllTyped(e, table)
    ensures j == ObjectOf(WrapTable(e, table))
    decreases e, 3
  {
    j := JNull;
    var keys := table.Keys;
    ghost var done: map<string, Json> := map[];
    while keys != {}
      invariant WrappedBut(e, table, done, keys)
      invariant j == ObjectOf(done)
      decreases |keys|
    {
      var k :| k in keys;
      var w := JsonWrap(e, table[k]);
      WrappedOneMore(e, table, done, keys, k);
      PutMember(done, k, w);
      j := Put(j, k, w);
      done := done[k := w];
      keys := keys - {k};
    }
    WrappedAll(e, table, done);
  }

  // json_serialize_context: the version, then the fields one after the other.
  method WrapObject(t: Type, v: Val) returns (j: Json)
    requires t.Object? && HasType(t, v)
    ensures j == ObjectOf(WrapFields(t, v, |t.fields|))
    decreases t, 0
  {
    j := JNull;
    if t.version != 0 {
      j := Put(j, "_ver", JUInt(t.version));
      assert "_ver" in WrapFields(t, v, 0);
    }
    for i := 0 to |t.fields|
      invariant j == ObjectOf(WrapFields(t, v, i))
    {
      var w := JsonWrap(t.fields[i].fieldType, v.fields[i]);
      assert t.fields[i].name in WrapFields(t, v, i + 1);
      j := Put(j, t.fields[i].name, w);
    }
  }

  method JsonWrap(t: Type, v: Val) returns (j: Json)
    requires HasType(t, v)
    ensures j == Wrap(t, v)
    decreases t, 2
  {
    match t {
      case Signed(_) => j := JInt(v.n);
      case Unsigned(_) => j := JUInt(v.n);
      case Bool => j := JBool(v.b);
      case Real => j := JReal(v.r);
      case String => j := JString(v.s);
      case VectorOf(e) => j := WrapArray(e, v.items);
      case SetOf(e, _) => j := WrapArray(e, v.members);
      case MapOf(e) => j := WrapMap(e, v.table);
      case Object(_, _) => j := WrapObject(t, v);
    }
  }

  lemma {:induction false} NoneStays(e: Type, elements: seq<Json>, i: nat, n: nat)
    requires i <= n <= |elements| && UnwrapItems(e, elements, i).None?
    ensures UnwrapItems(e, elements, n).None?
  {
    if i < n {
      NoneStays(e, elements, i, n - 1);
    }
  }

  lemma {:induction false} NoMemberStays(e: Type, before: (Val, Val) -> bool, elements: seq<Json>, i: nat, n: nat)
    requires i <= n <= |elements| && UnwrapMembers(e, before, elements, i).None?
    ensures UnwrapMembers(e, before, elements, n).None?
  {
    if i < n {
      NoMemberStays(e, before, elements, i, n - 1);
    }
  }

  lemma {:induction false} NoFieldStays(t: Type, prior: Val, object_: map<string, Json>, i: nat, n: nat)
    requires t.Object? && i <= n <= |t.fields| && UnwrapFields(t, prior, object_, i).None?
    ensures UnwrapFields(t, prior, object_, n).None?
  {
    if i < n {
      NoFieldStays(t, prior, object_, i, n - 1);
    }
  }

  method UnwrapVector(e: Type, elements: seq<Json>) returns (r: Option<seq<Val>>)
    ensures r == UnwrapItems(e, elements, |elements|)
    decreases e, 3
  {
    var items := [];
    for i := 0 to |elements|
      invariant UnwrapItems(e, elements, i) == Some(items)
    {
      var item := JsonUnwrap(e, Default(e), elements[i]);
      if item.None? {
        NoneStays(e, elements, i + 1, |elements|);
        return None;
      }
      items := items + [item.value];
    }
    return Some(items);
  }

  method UnwrapSet(e: Type, before: (Val, Val) -> bool, elements: seq<Json>) returns (r: Option<seq<Val>>)
    ensures r == UnwrapMembers(e, before, elements, |elements|)
    decreases e, 3
  {
    var members := [];
    for i := 0 to |elements|
      invariant UnwrapMembers(e, before, elements, i) == Some(members)
    {
      var item := JsonUnwrap(e, Default(e), elements[i]);
      if item.None? {
        NoMemberStays(e, before, elements, i + 1, |elements|);
        return None;
      }
      members := Inserted(members, item.value, before);
    }
    return Some(members);
  }

  // Of the object's members, all but the given keys are read.
  ghost predicate ReadBut(e: Type, object_: map<string, Json>, table: map<string, Val>, keys: set<string>) {
    && keys <= object_.Keys && table.Keys == object_.Keys - keys
    && forall k :: k in table ==> k in object_ && Unwrap(e, Default(e), object_[k]) == Some(table[k])
  }

  lemma ReadOneMore(e: Type, object_: map<string, Json>, table: map<string, Val>, keys: set<string>, k: string, v: Val)
    requires ReadBut(e, object_, table, keys) && k in keys && Unwrap(e, Default(e), object_[k]) == Some(v)
    ensures ReadBut(e, object_, table[k := v], keys - {k})
  {
    assert table[k := v].Keys == table.Keys + {k};
  }

  lemma ReadAll(e: Type, object_: map<string, Json>, table: map<string, Val>)
    requires ReadBut(e, object_, table, {})
    ensures UnwrapTable(e, object_) == Some(table)
  {
    assert object_.Keys == table.Keys;
    forall k | k in object_ ensures Unwrap(e, Default(e), object_[k]) == Some(table[k]) {
      assert k in object_.Keys;
    }
    SameTable(e, object_, table);
  }

  method UnwrapMap(e: Type, object_: map<string, Json>) returns (r: Option<map<string, Val>>)
    ensures r == UnwrapTable(e, object_)
    decreases e, 3
  {
    var table: map<string, Val> := map[];
    var keys := object_.Keys;
    while keys != {}
      invariant ReadBut(e, object_, table, keys)
      decreases |keys|
    {
      var k :| k in keys;
      var item := JsonUnwrap(e, Default(e), object_[k]);
      if item.None? {
        return None;
      }
      ReadOneMore(e, object_, table, keys, k, item.value);
      table := table[k := item.value];
      keys := keys - {k};
    }
    ReadAll(e, object_, table);
    return Some(table);
  }

  // json_deserialize_context and transfer_field, field by field into the prior value.
  method UnwrapObject(t: Type, prior: Val, object_: map<string, Json>) returns (r: Option<seq<Val>>)
    requires t.Object?
    ensures r == UnwrapFields(t, prior, object_, |t.fields|)
    decreases t, 0
  {
    var read := [];
    for i := 0 to |t.fields|
      invariant UnwrapFields(t, prior, object_, i) == Some(read)
    {
      var f := t.fields[i];
      var old_ := PriorField(prior, i, f);
      var field: Option<Val>;
      if f.name !in object_ {
        if f.strict {
          field := None;
        } else if f.noDefault {
          field := Some(old_);
        } else {
          field := Some(f.def);
        }
      } else if f.allowNull && object_[f.name].JNull? {
        field := Some(if f.noDefault then old_ else f.def);
      } else if object_[f.name].JNull? {
        field := None;
      } else {
        field := JsonUnwrap(f.fieldType, old_, object_[f.name]);
      }
      assert field == UnwrapField(t, prior, object_, i);
      if field.None? {
        NoFieldStays(t, prior, object_, i + 1, |t.fields|);
        return None;
      }
      read := read + [field.value];
    }
    return Some(read);
  }

  method JsonUnwrap(t: Type, prior: Val, j: Json) returns (r: Option<Val>)
    ensures r == Unwrap(t, prior, j)
    decreases t, 2
  {
    match t {
      case Signed(_) =>
        var n := AsInt64(j);
        r := if n.Some? then Some(Number(Narrowed(t, n.value))) else None;
      case Unsigned(_) =>
        var n := AsUInt64(j);
        r := if n.Some? then Some(Number(Narrowed(t, n.value))) else None;
      case Bool => r := if j.JBool? then Some(Boolean(j.b)) else None;
      case Real =>
        var x := AsDouble(j);
        r := if x.Some? then Some(Float(x.value)) else None;
      case String => r := if j.JString? then Some(Text(j.s)) else None;
      case VectorOf(e) =>
        if !j.JArray? {
          return None;
        }
        var items := UnwrapVector(e, j.elements);
        r := if items.Some? then Some(Items(items.value)) else None;
      case SetOf(e, before) =>
        if !j.JArray? {
          return None;
        }
        var members := UnwrapSet(e, before, j.elements);
        r := if members.Some? then Some(Members(members.value)) else None;
      case MapOf(e) =>
        if !j.JObject? {
          return None;
        }
        var table := UnwrapMap(e, j.object_);
        r := if table.Some? then Some(Table(table.value)) else None;
      case Object(_, _) =>
        if !j.JObject? {
          return None;
        }
        var read := UnwrapObject(t, prior, j.object_);
        r := if read.Some? then Some(Record(read.value)) else None;
    }
  }
}
