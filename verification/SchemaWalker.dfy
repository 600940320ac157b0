/**
 The fallback validator for structured model output: a recursive walk over a
 value and a schema that stops at the first problem.  `Conforms` is the
 declarative reading of the same keywords, once with the walker's own notions of
 type and equality and once with those of JSON Schema Validation 2020-12.
 */
module SchemaWalker {
  import opened Wrappers

  datatype Value =
    | Null
    | Bool(b: bool)
    | Int(n: int)
    | Float(x: real)
    | Str(s: string)
    | Arr(items: seq<Value>)
    | Obj(fields: map<string, Value>)

  /** `type` is absent, one name, or a list whose entries need not be names. */
  datatype TypeRule = AnyType | One(name: string) | OneOf(names: seq<Option<string>>)

  /** A schema that is not an object accepts everything. */
  datatype Schema =
    | NotObject
    | Rules(typ: TypeRule, choices: Option<seq<Value>>, required: seq<string>,
            properties: seq<(string, Schema)>, closed: bool, items: Option<Schema>)

  datatype Step = Key(k: string) | Index(i: nat)
  datatype Kind = WrongType | NotListed | Missing(k: string) | Undeclared
  datatype Problem = Problem(path: seq<Step>, kind: Kind)

  /** Which reading of types and equality applies. */
  datatype Reading = Walker | Standard

  // ----- types -----

  predicate Whole(x: real) { x.Floor as real == x }

  /** The value has the named type; an unknown name constrains nothing. */
  predicate HasType(v: Value, name: string, reading: Reading) {
    if name == "string" then v.Str?
    else if name == "number" then v.Int? || v.Float?
    else if name == "integer" then v.Int? || (reading.Standard? && v.Float? && Whole(v.x))
    else if name == "boolean" then v.Bool?
    else if name == "array" then v.Arr?
    else if name == "object" then v.Obj?
    else if name == "null" then v.Null?
    else true
  }

  predicate TypeOk(v: Value, t: TypeRule, reading: Reading) {
    match t
    case AnyType => true
    case One(name) => HasType(v, name, reading)
    case OneOf(names) =>
      names == [] || exists i :: 0 <= i < |names| && names[i].Some? && HasType(v, names[i].value, reading)
  }

  // ----- equality -----

  /** Numbers compare by value; the walker also counts booleans as 0 and 1. */
  function Number(v: Value, reading: Reading): Option<real> {
    match v
    case Int(n) => Some(n as real)
    case Float(x) => Some(x)
    case Bool(b) => if reading.Walker? then Some(if b then 1.0 else 0.0) else None
    case _ => None
  }

  predicate Equal(a: Value, b: Value, reading: Reading)
    decreases a
  {
    if Number(a, reading).Some? || Number(b, reading).Some? then Number(a, reading) == Number(b, reading)
    else
      match (a, b)
      case (Null, Null) => true
      case (Bool(x), Bool(y)) => x == y
      case (Str(s), Str(t)) => s == t
      case (Arr(xs), Arr(ys)) => |xs| == |ys| && forall i :: 0 <= i < |xs| ==> Equal(xs[i], ys[i], reading)
      case (Obj(m), Obj(n)) => m.Keys == n.Keys && forall k :: k in m ==> Equal(m[k], n[k], reading)
      case _ => false
  }

  predicate Listed(v: Value, choices: seq<Value>, reading: Reading) {
    exists i :: 0 <= i < |choices| && Equal(v, choices[i], reading)
  }

  // ----- the declarative semantics -----

  predicate RequiredOk(v: Value, s: Schema)
    requires s.Rules?
  {
    v.Obj? ==> forall i :: 0 <= i < |s.required| ==> s.required[i] in v.fields
  }

  predicate ClosedOk(v: Value, s: Schema)
    requires s.Rules?
  {
    v.Obj? && s.closed ==> forall k :: k in v.fields ==> exists i :: 0 <= i < |s.properties| && s.properties[i].0 == k
  }

  /** What one node must satisfy, apart from its children. */
  predicate NodeOk(v: Value, s: Schema, reading: Reading) {
    s.Rules? ==>
      && TypeOk(v, s.typ, reading)
      && (s.choices.Some? ==> Listed(v, s.choices.value, reading))
      && RequiredOk(v, s) && ClosedOk(v, s)
  }

  predicate Conforms(v: Value, s: Schema, reading: Reading)
    decreases v
  {
    NodeOk(v, s, reading)
    && (s.Rules? ==>
          && (v.Obj? ==> forall i :: 0 <= i < |s.properties| && s.properties[i].0 in v.fields ==>
                Conforms(v.fields[s.properties[i].0], s.properties[i].1, reading))
          && (v.Arr? && s.items.Some? ==>
                forall i :: 0 <= i < |v.items| ==> Conforms(v.items[i], s.items.value, reading)))
  }

  // ----- the walk -----

  function FirstMissing(v: Value, required: seq<string>, i: nat): (r: Option<string>)
    requires v.Obj? && i <= |required|
    ensures r.None? <==> forall j :: i <= j < |required| ==> required[j] in v.fields
    ensures r.Some? ==> r.value in required && r.value !in v.fields
    decreases |required| - i
  {
    if i == |required| then None
    else if required[i] !in v.fields then Some(required[i])
    else FirstMissing(v, required, i + 1)
  }

  function Declared(properties: seq<(string, Schema)>): set<string> { set p | p in properties :: p.0 }

  function Walk(v: Value, s: Schema, path: seq<Step>): Option<Problem>
    decreases v, 1, 0
  {
    if s.NotObject? then None
    else if !TypeOk(v, s.typ, Walker) then Some(Problem(path, WrongType))
    else if s.choices.Some? && !Listed(v, s.choices.value, Walker) then Some(Problem(path, NotListed))
    else if v.Obj? then
      var missing := FirstMissing(v, s.required, 0);
      if missing.Some? then Some(Problem(path, Missing(missing.value)))
      else if s.closed && v.fields.Keys - Declared(s.properties) != {} then Some(Problem(path, Undeclared))
      else WalkFields(v, s.properties, 0, path)
    else if v.Arr? && s.items.Some? then WalkItems(v, s.items.value, 0, path)
    else None
  }

  function WalkFields(v: Value, properties: seq<(string, Schema)>, i: nat, path: seq<Step>): Option<Problem>
    requires v.Obj? && i <= |properties|
    decreases v, 0, |properties| - i
  {
    if i == |properties| then None
    else
      var (key, sub) := properties[i];
      var problem := if key in v.fields then Walk(v.fields[key], sub, path + [Key(key)]) else None;
      if problem.Some? then problem else WalkFields(v, properties, i + 1, path)
  }

  function WalkItems(v: Value, sub: Schema, i: nat, path: seq<Step>): Option<Problem>
    requires v.Arr? && i <= |v.items|
    decreases v, 0, |v.items| - i
  {
    if i == |v.items| then None
    else
      var problem := Walk(v.items[i], sub, path + [Index(i)]);
      if problem.Some? then problem else WalkItems(v, sub, i + 1, path)
  }

  lemma NodeWalk(v: Value, s: Schema)
    requires v.Obj? && s.Rules?
    ensures RequiredOk(v, s) <==> FirstMissing(v, s.required, 0).None?
    ensures ClosedOk(v, s) <==> !(s.closed && v.fields.Keys - Declared(s.properties) != {})
  {
    forall k: string
      ensures k in Declared(s.properties) <==> exists i :: 0 <= i < |s.properties| && s.properties[i].0 == k
    {
      if exists i :: 0 <= i < |s.properties| && s.properties[i].0 == k {
        var i :| 0 <= i < |s.properties| && s.properties[i].0 == k;
        assert s.properties[i] in s.properties;
      }
    }
    var extra := v.fields.Keys - Declared(s.properties);
    if extra != {} {
      var k :| k in extra;
      assert k in v.fields && !exists i :: 0 <= i < |s.properties| && s.properties[i].0 == k;
    }
    forall k | k in v.fields && k !in extra ensures exists i :: 0 <= i < |s.properties| && s.properties[i].0 == k {
      assert k in Declared(s.properties);
    }
  }

  /** The walk reports nothing exactly when the value conforms. */
  lemma {:induction false} WalkIff(v: Value, s: Schema, path: seq<Step>)
    ensures Walk(v, s, path).None? <==> Conforms(v, s, Walker)
    decreases v, 1, 0
  {
    if s.Rules? && v.Obj? {
      NodeWalk(v, s);
      FieldsIff(v, s.properties, 0, path);
    } else if s.Rules? && v.Arr? && s.items.Some? {
      ItemsIff(v, s.items.value, 0, path);
    }
  }

  lemma {:induction false} FieldsIff(v: Value, properties: seq<(string, Schema)>, i: nat, path: seq<Step>)
    requires v.Obj? && i <= |properties|
    ensures WalkFields(v, properties, i, path).None? <==>
            forall j :: i <= j < |properties| && properties[j].0 in v.fields ==>
                Conforms(v.fields[properties[j].0], properties[j].1, Walker)
    decreases v, 0, |properties| - i
  {
    if i < |properties| {
      if properties[i].0 in v.fields {
        WalkIff(v.fields[properties[i].0], properties[i].1, path + [Key(properties[i].0)]);
      }
      FieldsIff(v, properties, i + 1, path);
    }
  }

  lemma {:induction false} ItemsIff(v: Value, sub: Schema, i: nat, path: seq<Step>)
    requires v.Arr? && i <= |v.items|
    ensures WalkItems(v, sub, i, path).None? <==> forall j :: i <= j < |v.items| ==> Conforms(v.items[j], sub, Walker)
    decreases v, 0, |v.items| - i
  {
    if i < |v.items| {
      WalkIff(v.items[i], sub, path + [Index(i)]);
      ItemsIff(v, sub, i + 1, path);
    }
  }

  // ----- what a reported problem means -----

  /** Following `rel` from (v, s) leads to (u, t). */
  ghost predicate Leads(v: Value, s: Schema, rel: seq<Step>, u: Value, t: Schema)
    decreases |rel|
  {
    if rel == [] then u == v && t == s
    else
      s.Rules?
      && match rel[0]
         case Key(k) => v.Obj? && k in v.fields
                        && exists i :: 0 <= i < |s.properties| && s.properties[i].0 == k
                            && Leads(v.fields[k], s.properties[i].1, rel[1..], u, t)
         case Index(i) => v.Arr? && i < |v.items| && s.items.Some? && Leads(v.items[i], s.items.value, rel[1..], u, t)
  }

  ghost predicate Violates(v: Value, s: Schema, kind: Kind) {
    s.Rules?
    && match kind
       case WrongType => !TypeOk(v, s.typ, Walker)
       case NotListed => s.choices.Some? && !Listed(v, s.choices.value, Walker)
       case Missing(k) => v.Obj? && k in s.required && k !in v.fields
       case Undeclared => v.Obj? && !ClosedOk(v, s)
  }

  /**
   A reported path leads to a part of the value that breaks the reported keyword
   of the matching part of the schema.
   */
  lemma {:induction false} ProblemIsReal(v: Value, s: Schema, path: seq<Step>)
    returns (rel: seq<Step>, u: Value, t: Schema)
    requires Walk(v, s, path).Some?
    ensures Walk(v, s, path).value.path == path + rel
    ensures Leads(v, s, rel, u, t) && Violates(u, t, Walk(v, s, path).value.kind)
    decreases v, 1, 0
  {
    rel, u, t := [], v, s;
    if v.Obj? { NodeWalk(v, s); }
    if Walk(v, s, path).value.path != path || !Violates(v, s, Walk(v, s, path).value.kind) {
      if v.Obj? {
        rel, u, t := FieldProblem(v, s, 0, path);
      } else {
        rel, u, t := ItemProblem(v, s, 0, path);
      }
    } else {
      assert path + [] == path;
    }
  }

  lemma {:induction false} FieldProblem(v: Value, s: Schema, i: nat, path: seq<Step>)
    returns (rel: seq<Step>, u: Value, t: Schema)
    requires v.Obj? && s.Rules? && i <= |s.properties| && WalkFields(v, s.properties, i, path).Some?
    ensures var p := WalkFields(v, s.properties, i, path).value;
            p.path == path + rel && Leads(v, s, rel, u, t) && Violates(u, t, p.kind)
    decreases v, 0, |s.properties| - i
  {
    var (key, sub) := s.properties[i];
    if key in v.fields && Walk(v.fields[key], sub, path + [Key(key)]).Some? {
      var tail;
      tail, u, t := ProblemIsReal(v.fields[key], sub, path + [Key(key)]);
      rel := [Key(key)] + tail;
      assert rel[1..] == tail;
      assert path + [Key(key)] + tail == path + rel;
    } else {
      rel, u, t := FieldProblem(v, s, i + 1, path);
    }
  }

  lemma {:induction false} ItemProblem(v: Value, s: Schema, i: nat, path: seq<Step>)
    returns (rel: seq<Step>, u: Value, t: Schema)
    requires v.Arr? && s.Rules? && s.items.Some? && i <= |v.items| && WalkItems(v, s.items.value, i, path).Some?
    ensures var p := WalkItems(v, s.items.value, i, path).value;
            p.path == path + rel && Leads(v, s, rel, u, t) && Violates(u, t, p.kind)
    decreases v, 0, |v.items| - i
  {
    if Walk(v.items[i], s.items.value, path + [Index(i)]).Some? {
      var tail;
      tail, u, t := ProblemIsReal(v.items[i], s.items.value, path + [Index(i)]);
      rel := [Index(i)] + tail;
      assert rel[1..] == tail;
      assert path + [Index(i)] + tail == path + rel;
    } else {
      rel, u, t := ItemProblem(v, s, i + 1, path);
    }
  }

  // ----- against the standard -----

  /** The two readings of a type differ only on `integer` and a float with zero fraction. */
  lemma TypesDifferIff(v: Value, name: string)
    ensures HasType(v, name, Walker) != HasType(v, name, Standard) <==> name == "integer" && v.Float? && Whole(v.x)
    ensures HasType(v, name, Walker) ==> HasType(v, name, Standard)
  {}

  /** At every matching position a boolean meets a boolean. */
  predicate BoolsAlign(a: Value, b: Value)
    decreases a
  {
    && (a.Bool? <==> b.Bool?)
    && (a.Arr? && b.Arr? && |a.items| == |b.items| ==>
          forall i :: 0 <= i < |a.items| ==> BoolsAlign(a.items[i], b.items[i]))
    && (a.Obj? && b.Obj? && a.fields.Keys == b.fields.Keys ==>
          forall k :: k in a.fields ==> BoolsAlign(a.fields[k], b.fields[k]))
  }

  /** Standard equality is the walker's equality minus the identification of booleans with 0 and 1. */
  lemma {:induction false} EqualityIff(a: Value, b: Value)
    ensures Equal(a, b, Standard) <==> Equal(a, b, Walker) && BoolsAlign(a, b)
    decreases a
  {
    if a.Arr? && b.Arr? && |a.items| == |b.items| {
      forall i | 0 <= i < |a.items|
        ensures Equal(a.items[i], b.items[i], Standard)
                <==> Equal(a.items[i], b.items[i], Walker) && BoolsAlign(a.items[i], b.items[i])
      {
        EqualityIff(a.items[i], b.items[i]);
      }
    } else if a.Obj? && b.Obj? && a.fields.Keys == b.fields.Keys {
      forall k | k in a.fields
        ensures Equal(a.fields[k], b.fields[k], Standard)
                <==> Equal(a.fields[k], b.fields[k], Walker) && BoolsAlign(a.fields[k], b.fields[k])
      {
        EqualityIff(a.fields[k], b.fields[k]);
      }
    }
  }

  /** A whole float meets `integer` and no other listed type admits it. */
  predicate RefusedFloat(v: Value, t: TypeRule) {
    && v.Float? && Whole(v.x)
    && match t
       case AnyType => false
       case One(name) => name == "integer"
       case OneOf(names) =>
         && (exists i :: 0 <= i < |names| && names[i] == Some("integer"))
         && forall i :: 0 <= i < |names| && names[i].Some? ==> !HasType(v, names[i].value, Walker)
  }

  /** The walker's reading of a type is the standard's minus the refused floats. */
  lemma TypesIff(v: Value, t: TypeRule)
    ensures TypeOk(v, t, Walker) <==> TypeOk(v, t, Standard) && !RefusedFloat(v, t)
  {
    forall name ensures HasType(v, name, Walker) ==> HasType(v, name, Standard)
                ensures HasType(v, name, Standard) && !HasType(v, name, Walker) ==>
                          name == "integer" && v.Float? && Whole(v.x)
    {
      TypesDifferIff(v, name);
    }
    if t.OneOf? && TypeOk(v, t, Standard) && !TypeOk(v, t, Walker) {
      var i :| 0 <= i < |t.names| && t.names[i].Some? && HasType(v, t.names[i].value, Standard);
      assert t.names[i] == Some("integer");
    }
  }

  /** Some choice the walker takes also agrees on what is a boolean. */
  predicate ListingAligns(v: Value, choices: seq<Value>) {
    exists i :: 0 <= i < |choices| && Equal(v, choices[i], Walker) && BoolsAlign(v, choices[i])
  }

  lemma ListingsIff(v: Value, choices: seq<Value>)
    ensures Listed(v, choices, Standard) <==> ListingAligns(v, choices)
    ensures ListingAligns(v, choices) ==> Listed(v, choices, Walker)
  {
    forall i | 0 <= i < |choices|
      ensures Equal(v, choices[i], Standard) <==> Equal(v, choices[i], Walker) && BoolsAlign(v, choices[i])
    {
      EqualityIff(v, choices[i]);
    }
  }

  /** At no part of the value that the schema speaks of is a whole float refused. */
  predicate NoRefusedFloats(v: Value, s: Schema)
    decreases v
  {
    s.Rules? ==>
      && !RefusedFloat(v, s.typ)
      && (v.Obj? ==>
            forall i :: 0 <= i < |s.properties| && s.properties[i].0 in v.fields ==>
              NoRefusedFloats(v.fields[s.properties[i].0], s.properties[i].1))
      && (v.Arr? && s.items.Some? ==> forall i :: 0 <= i < |v.items| ==> NoRefusedFloats(v.items[i], s.items.value))
  }

  /** At every part of the value that meets an enumeration, some listed choice aligns. */
  predicate ListingsAlign(v: Value, s: Schema)
    decreases v
  {
    s.Rules? ==>
      && (s.choices.Some? ==> ListingAligns(v, s.choices.value))
      && (v.Obj? ==>
            forall i :: 0 <= i < |s.properties| && s.properties[i].0 in v.fields ==>
              ListingsAlign(v.fields[s.properties[i].0], s.properties[i].1))
      && (v.Arr? && s.items.Some? ==> forall i :: 0 <= i < |v.items| ==> ListingsAlign(v.items[i], s.items.value))
  }

  /** One node: what the walker accepts with an aligned choice is what the standard accepts without a refused float. */
  lemma NodesIff(v: Value, s: Schema)
    requires s.Rules?
    ensures NodeOk(v, s, Walker) && (s.choices.Some? ==> ListingAligns(v, s.choices.value))
            <==> NodeOk(v, s, Standard) && !RefusedFloat(v, s.typ)
    ensures NodeOk(v, s, Walker) ==> !RefusedFloat(v, s.typ)
    ensures NodeOk(v, s, Standard) && s.choices.Some? ==> ListingAligns(v, s.choices.value)
  {
    TypesIff(v, s.typ);
    if s.choices.Some? { ListingsIff(v, s.choices.value); }
  }

  ghost predicate Reconciled(v: Value, s: Schema) {
    && (Conforms(v, s, Walker) && ListingsAlign(v, s) <==> Conforms(v, s, Standard) && NoRefusedFloats(v, s))
    && (Conforms(v, s, Walker) ==> NoRefusedFloats(v, s))
    && (Conforms(v, s, Standard) ==> ListingsAlign(v, s))
  }

  /**
   For every value and schema: the walker accepts and every enumeration it met
   lists an aligned choice, exactly when the standard accepts and no whole float
   was refused.  Each side's verdict alone settles the other's condition.
   */
  lemma {:induction false} ReadingsIff(v: Value, s: Schema)
    ensures Conforms(v, s, Walker) && ListingsAlign(v, s) <==> Conforms(v, s, Standard) && NoRefusedFloats(v, s)
    ensures Conforms(v, s, Walker) ==> NoRefusedFloats(v, s)
    ensures Conforms(v, s, Standard) ==> ListingsAlign(v, s)
    decreases v
  {
    if s.Rules? {
      NodesIff(v, s);
      if v.Obj? {
        forall i | 0 <= i < |s.properties| && s.properties[i].0 in v.fields
          ensures Reconciled(v.fields[s.properties[i].0], s.properties[i].1)
        {
          ReadingsIff(v.fields[s.properties[i].0], s.properties[i].1);
        }
      } else if v.Arr? && s.items.Some? {
        forall i | 0 <= i < |v.items|
          ensures Reconciled(v.items[i], s.items.value)
        {
          ReadingsIff(v.items[i], s.items.value);
        }
      }
    }
  }

  /**
   The two verdicts coincide exactly when nothing the walker accepts meets an
   enumeration without an aligned choice and nothing the standard accepts meets a
   refused float.
   */
  lemma MatchesStandard(v: Value, s: Schema)
    ensures (Conforms(v, s, Walker) <==> Conforms(v, s, Standard))
            <==> && (Conforms(v, s, Walker) ==> ListingsAlign(v, s))
                 && (Conforms(v, s, Standard) ==> NoRefusedFloats(v, s))
    ensures NoRefusedFloats(v, s) && ListingsAlign(v, s) ==> (Conforms(v, s, Walker) <==> Conforms(v, s, Standard))
  {
    ReadingsIff(v, s);
  }

  /** Both exceptions are real, in both directions: one refuses too much, the other admits too much. */
  lemma ExceptionsAreReal()
    ensures var s := Rules(One("integer"), None, [], [], false, None);
            !Conforms(Float(2.0), s, Walker) && Conforms(Float(2.0), s, Standard)
    ensures var s := Rules(AnyType, Some([Int(1)]), [], [], false, None);
            Conforms(Bool(true), s, Walker) && !Conforms(Bool(true), s, Standard)
  {
    assert Whole(2.0);
    assert Equal(Bool(true), [Int(1)][0], Walker);
  }
}
