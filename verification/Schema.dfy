/** The OpenAPI variant of the generated JSON schema: `anyOf [T, null]` becomes `nullable`. */
module Schema {
  datatype Json =
    | Null
    | Bool(b: bool)
    | Num(n: real)
    | Str(s: string)
    | Arr(items: seq<Json>)
    | Obj(members: map<string, Json>)

  const ANY_OF := "anyOf"
  const TYPE := "type"
  const NULLABLE := "nullable"

  // ---- The rewriting -------------------------------------------------------------

  predicate IsNullItem(j: Json) {
    j.Obj? && TYPE in j.members && j.members[TYPE] == Str("null")
  }

  /** An object with a `type` and nothing else. */
  predicate IsTypeItem(j: Json) {
    j.Obj? && !IsNullItem(j) && TYPE in j.members && |j.members| == 1
  }

  /** The `anyOf` has two entries: a null type and a plain type. */
  predicate Rewritable(m: map<string, Json>) {
    && ANY_OF in m && m[ANY_OF].Arr? && |m[ANY_OF].items| == 2
    && (var a, b := m[ANY_OF].items[0], m[ANY_OF].items[1];
        (IsNullItem(a) && IsTypeItem(b)) || (IsTypeItem(a) && IsNullItem(b)))
  }

  function TypeItem(m: map<string, Json>): (r: Json)
    requires Rewritable(m)
    ensures IsTypeItem(r) && r < Obj(m)
  {
    var a, b := m[ANY_OF].items[0], m[ANY_OF].items[1];
    assert m[ANY_OF] < Obj(m) && a < m[ANY_OF] && b < m[ANY_OF];
    if IsTypeItem(a) then a else b
  }

  function NullItem(m: map<string, Json>): (r: Json)
    requires Rewritable(m)
    ensures IsNullItem(r) && r < Obj(m)
  {
    var a, b := m[ANY_OF].items[0], m[ANY_OF].items[1];
    assert m[ANY_OF] < Obj(m) && a < m[ANY_OF] && b < m[ANY_OF];
    if IsTypeItem(a) then b else a
  }

  function PlainType(m: map<string, Json>): (r: Json)
    requires Rewritable(m)
    ensures r < Obj(m) && r != Str("null")
  {
    TypeItem(m).members[TYPE]
  }

  /** `_convert_to_openapi_nullable` as a function. A parent is rewritten first; then its
      remaining values are converted. */
  function Converted(j: Json): Json {
    match j
    case Arr(items) => Arr(seq(|items|, i requires 0 <= i < |items| => Converted(items[i])))
    case Obj(m) =>
      if Rewritable(m) then
        Obj((map k | k in m && k != ANY_OF :: Converted(m[k]))
            + map[TYPE := Converted(PlainType(m)), NULLABLE := Bool(true)])
      else Obj(map k | k in m :: Converted(m[k]))
    case _ => j
  }

  /** The traversal takes the length of every `anyOf` that it meets; `len` raises on numbers,
      booleans and null. */
  predicate Sized(j: Json) {
    match j
    case Arr(items) => forall i | 0 <= i < |items| :: Sized(items[i])
    case Obj(m) =>
      && (ANY_OF in m ==> m[ANY_OF].Arr? || m[ANY_OF].Str? || m[ANY_OF].Obj?)
      && (if Rewritable(m) then Sized(PlainType(m)) && forall k | k in m && k != ANY_OF :: Sized(m[k])
          else forall k | k in m :: Sized(m[k]))
    case _ => true
  }

  /** One dictionary after its own rewriting, before its values are converted. */
  function Flattened(m: map<string, Json>): map<string, Json> {
    if Rewritable(m) then (m - {ANY_OF})[TYPE := PlainType(m)][NULLABLE := Bool(true)] else m
  }

  lemma FlattenedFacts(m: map<string, Json>)
    ensures Converted(Obj(m)).Obj? && Converted(Obj(m)).members.Keys == Flattened(m).Keys
    ensures forall k | k in Flattened(m) :: Converted(Obj(m)).members[k] == Converted(Flattened(m)[k])
    ensures forall k | k in Flattened(m) :: Flattened(m)[k] == Bool(true) || Flattened(m)[k] < Obj(m)
    ensures Sized(Obj(m)) ==> forall k | k in Flattened(m) :: Sized(Flattened(m)[k])
  {
  }

  lemma ScalarsStay(j: Json)
    requires !j.Obj? && !j.Arr?
    ensures Converted(j) == j
  {
  }

  lemma OnlyMember<T>(m: map<string, T>)
    requires TYPE in m && |m| == 1
    ensures m == map[TYPE := m[TYPE]]
  {
    assert |m.Keys - {TYPE}| == 0;
    assert m.Keys == {TYPE};
  }

  // ---- Nothing is left to rewrite -------------------------------------------------

  /** No dictionary at any depth is rewritable. */
  predicate Settled(j: Json) {
    match j
    case Arr(items) => forall i | 0 <= i < |items| :: Settled(items[i])
    case Obj(m) => !Rewritable(m) && forall k | k in m :: Settled(m[k])
    case _ => true
  }

  /** The conversion keeps what kind of value it is, keeps scalars, and goes through lists. */
  lemma ShapeStays(j: Json)
    ensures Converted(j).Str? <==> j.Str?
    ensures Converted(j).Obj? <==> j.Obj?
    ensures Converted(j).Arr? <==> j.Arr?
    ensures j.Str? || j.Bool? || j.Null? || j.Num? ==> Converted(j) == j
    ensures j == Bool(true) <==> Converted(j) == Bool(true)
    ensures j.Arr? ==> |Converted(j).items| == |j.items| && forall i | 0 <= i < |j.items| ::
              Converted(j).items[i] == Converted(j.items[i])
  {
  }

  /** Converting a branch of an `anyOf` never makes it a null type or a plain type. */
  lemma BranchesOnlyLose(x: Json)
    ensures IsNullItem(Converted(x)) ==> IsNullItem(x)
    ensures IsTypeItem(Converted(x)) ==> IsTypeItem(x)
  {
    if x.Obj? {
      var m, c := x.members, Converted(x).members;
      FlattenedFacts(m);
      assert TYPE in Flattened(m) ==> c[TYPE] == Converted(Flattened(m)[TYPE]);
      if Rewritable(m) {
        assert Flattened(m)[TYPE] == PlainType(m);
        ShapeStays(PlainType(m));
        assert {TYPE, NULLABLE} <= c.Keys && TYPE != NULLABLE;
        if |c| == 1 {
          OnlyMember(c);
          assert false;
        }
      } else {
        assert c.Keys == m.Keys;
        assert |c.Keys| == |c| && |m.Keys| == |m|;
        if TYPE in m {
          ShapeStays(m[TYPE]);
        }
      }
      hide Converted, Flattened, Rewritable;
    }
  }

  /** Parents are tested before their children are rewritten, and still nothing is missed. */
  lemma NotRewritableAfterwards(m: map<string, Json>)
    ensures Converted(Obj(m)).Obj? && !Rewritable(Converted(Obj(m)).members)
  {
    FlattenedFacts(m);
    var c := Converted(Obj(m)).members;
    assert Rewritable(m) ==> ANY_OF !in Flattened(m);
    if ANY_OF in c {
      assert Flattened(m) == m && c[ANY_OF] == Converted(m[ANY_OF]);
      if m[ANY_OF].Arr? && |m[ANY_OF].items| == 2 {
        var xs := m[ANY_OF].items;
        assert c[ANY_OF].items == [Converted(xs[0]), Converted(xs[1])];
        hide Converted, Flattened;
        BranchesOnlyLose(xs[0]);
        BranchesOnlyLose(xs[1]);
        hide IsNullItem, IsTypeItem;
      }
    }
  }

  lemma {:induction false} ConvertedIsSettled(j: Json)
    ensures Settled(Converted(j))
    decreases j
  {
    match j {
      case Arr(items) =>
        forall i | 0 <= i < |items| ensures Settled(Converted(items[i])) {
          ConvertedIsSettled(items[i]);
        }
      case Obj(m) =>
        FlattenedFacts(m);
        NotRewritableAfterwards(m);
        var c := Converted(j).members;
        hide Converted, Flattened, Rewritable;
        forall k | k in Flattened(m) ensures Settled(c[k]) {
          if Flattened(m)[k] == Bool(true) {
            ScalarsStay(Flattened(m)[k]);
          } else {
            ConvertedIsSettled(Flattened(m)[k]);
          }
        }
        assert Settled(Obj(c));
      case _ =>
    }
  }

  lemma {:induction false} SettledStays(j: Json)
    requires Settled(j)
    ensures Converted(j) == j
    decreases j
  {
    match j {
      case Arr(items) =>
        forall i | 0 <= i < |items| ensures Converted(items[i]) == items[i] {
          SettledStays(items[i]);
        }
        assert Converted(j).items == items;
      case Obj(m) =>
        forall k | k in m ensures Converted(m[k]) == m[k] {
          SettledStays(m[k]);
        }
        assert Converted(j).members == m;
      case _ =>
    }
  }

  /** A second conversion changes nothing, and the schemas that the conversion leaves alone
      are exactly those with nothing to rewrite at any depth. */
  lemma ConversionIsIdempotent(j: Json)
    ensures Converted(Converted(j)) == Converted(j)
    ensures Converted(j) == j <==> Settled(j)
  {
    ConvertedIsSettled(j);
    SettledStays(Converted(j));
    if Settled(j) {
      SettledStays(j);
    }
  }

  // ---- The conversion, told from the members of a schema --------------------------------

  /** The `anyOf` of `m` offers null or the type `t`: it has two entries, in either order, of which
      one is an object with the `type` "null" and the other has the `type` `t` and nothing else. */
  ghost predicate OffersNullOr(m: map<string, Json>, t: Json) {
    && "anyOf" in m && t != Str("null")
    && exists other ::
         && "type" in other && other["type"] == Str("null")
         && m["anyOf"] in {Arr([Obj(map["type" := t]), Obj(other)]), Arr([Obj(other), Obj(map["type" := t])])}
  }

  ghost predicate OffersNull(m: map<string, Json>) { exists t :: OffersNullOr(m, t) }

  /** Value `r` is what the conversion should make of `j`. A dictionary whose `anyOf` offers null
      or a type loses the `anyOf` and gets the type, converted, and `nullable`; any other one
      keeps its keys. All other values, at every depth, are converted in their places. */
  ghost predicate IsConversion(j: Json, r: Json)
    decreases j
  {
    match j
    case Arr(items) =>
      r.Arr? && |r.items| == |items| && forall i | 0 <= i < |items| :: IsConversion(items[i], r.items[i])
    case Obj(m) =>
      && r.Obj?
      && var c := r.members;
      && (forall t | t < j && OffersNullOr(m, t) ::
            c.Keys == m.Keys - {"anyOf"} + {"type", "nullable"} && IsConversion(t, c["type"])
              && c["nullable"] == Bool(true))
      && (!OffersNull(m) ==> c.Keys == m.Keys)
      && forall k | k in m && k in c && !(OffersNull(m) && k in {"type", "nullable"}) :: IsConversion(m[k], c[k])
    case _ => r == j
  }

  lemma SingleMember(t: Json)
    ensures |map["type" := t]| == 1 && map["type" := t]["type"] == t
  {
  }

  /** The tests of the code and the description of the `anyOf` agree. */
  lemma RewritableIff(m: map<string, Json>)
    ensures forall t :: OffersNullOr(m, t) <==> Rewritable(m) && t == PlainType(m)
    ensures OffersNull(m) <==> Rewritable(m)
  {
    if Rewritable(m) {
      OnlyMember(TypeItem(m).members);
      var t, other := PlainType(m), NullItem(m).members;
      assert m[ANY_OF].items == [m[ANY_OF].items[0], m[ANY_OF].items[1]];
      assert m["anyOf"] in {Arr([Obj(map["type" := t]), Obj(other)]), Arr([Obj(other), Obj(map["type" := t])])};
      assert OffersNullOr(m, t);
    }
    forall t | OffersNullOr(m, t) ensures Rewritable(m) && t == PlainType(m) {
      var other :| "type" in other && other["type"] == Str("null")
        && m["anyOf"] in {Arr([Obj(map["type" := t]), Obj(other)]), Arr([Obj(other), Obj(map["type" := t])])};
      SingleMember(t);
      assert IsTypeItem(Obj(map["type" := t])) && IsNullItem(Obj(other));
    }
  }

  lemma ConvertedMembers(m: map<string, Json>)
    ensures Converted(Obj(m)).Obj?
    ensures var c := Converted(Obj(m)).members;
            if Rewritable(m) then
              && c.Keys == m.Keys - {ANY_OF} + {TYPE, NULLABLE}
              && c[TYPE] == Converted(PlainType(m)) && c[NULLABLE] == Bool(true)
              && forall k | k in m && k !in {ANY_OF, TYPE, NULLABLE} :: c[k] == Converted(m[k])
            else c.Keys == m.Keys && forall k | k in m :: c[k] == Converted(m[k])
  {
  }

  /** Main result for the conversion: on every value, it gives what it should and nothing else. */
  lemma {:induction false} ConvertsExactly(j: Json, r: Json)
    ensures IsConversion(j, r) <==> r == Converted(j)
    decreases j
  {
    match j {
      case Arr(items) =>
        if r.Arr? && |r.items| == |items| {
          forall i | 0 <= i < |items| ensures IsConversion(items[i], r.items[i])
            <==> r.items[i] == Converted(items[i]) {
            ConvertsExactly(items[i], r.items[i]);
          }
          assert r == Converted(j) <==> forall i | 0 <= i < |items| :: r.items[i] == Converted(items[i]) by {
            SameList(items, r.items);
          }
        }
      case Obj(m) =>
        if r.Obj? {
          ConvertsObject(m, r.members);
        }
      case _ =>
    }
  }

  lemma SameList(items: seq<Json>, results: seq<Json>)
    requires |results| == |items|
    ensures Arr(results) == Converted(Arr(items)) <==> forall i | 0 <= i < |items| :: results[i] == Converted(items[i])
  {
    ShapeStays(Arr(items));
    assert (forall i | 0 <= i < |items| :: results[i] == Converted(items[i])) ==>
        results == Converted(Arr(items)).items;
  }

  /** What the description says of a dictionary whose `anyOf` offers null or `t`. */
  lemma OfferingMeans(m: map<string, Json>, c: map<string, Json>, t: Json)
    requires t < Obj(m) && OffersNull(m) && forall u :: OffersNullOr(m, u) <==> u == t
    ensures IsConversion(Obj(m), Obj(c)) <==>
            && c.Keys == m.Keys - {"anyOf"} + {"type", "nullable"}
            && IsConversion(t, c["type"]) && c["nullable"] == Bool(true)
            && forall k | k in m && k in c && k !in {"type", "nullable"} :: IsConversion(m[k], c[k])
  {
    hide OffersNull;
    assert OffersNullOr(m, t);
    hide OffersNullOr;
  }

  /** The same for the conversion itself. */
  lemma ConvertedMeans(m: map<string, Json>, c: map<string, Json>)
    ensures Obj(c) == Converted(Obj(m)) <==>
            if Rewritable(m) then
              && c.Keys == m.Keys - {"anyOf"} + {"type", "nullable"}
              && c["type"] == Converted(PlainType(m)) && c["nullable"] == Bool(true)
              && forall k | k in m && k in c && k !in {"type", "nullable"} :: c[k] == Converted(m[k])
            else c.Keys == m.Keys && forall k | k in m && k in c :: c[k] == Converted(m[k])
  {
    ConvertedMembers(m);
    SameMembers(c, Converted(Obj(m)).members);
    hide Converted, Rewritable;
  }

  lemma {:induction false} ConvertsObject(m: map<string, Json>, c: map<string, Json>)
    ensures IsConversion(Obj(m), Obj(c)) <==> Obj(c) == Converted(Obj(m))
    decreases Obj(m), 0
  {
    RewritableIff(m);
    ConvertedMeans(m, c);
    forall k | k in m && k in c ensures IsConversion(m[k], c[k]) <==> c[k] == Converted(m[k]) {
      ConvertsExactly(m[k], c[k]);
    }
    if Rewritable(m) {
      OfferingMeans(m, c, PlainType(m));
      hide Converted, OffersNullOr, OffersNull, Rewritable, IsConversion;
      if "type" in c {
        ConvertsExactly(PlainType(m), c["type"]);
      }
    } else {
      hide Converted, OffersNullOr, Rewritable;
    }
  }

  lemma SameMembers(c: map<string, Json>, d: map<string, Json>)
    ensures c == d <==> c.Keys == d.Keys && forall k | k in c && k in d :: c[k] == d[k]
  {
    if c.Keys == d.Keys && forall k | k in c && k in d :: c[k] == d[k] {
      assert forall k :: k in c <==> k in c.Keys;
    }
  }
}
