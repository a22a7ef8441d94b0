/** Which values a schema accepts, with the `nullable` of section 4.7.24 of the OpenAPI
    Specification 3.0.3, and why the rewriting keeps it. */
module SchemaMeaning {
  import opened Schema
  import opened Options

  /** Keywords that the model does not interpret: each is some condition on its value and the
      instance, for instance `minLength`, `pattern`, `enum` or `const`. */
  type Constraints = (string, Json, Json) -> bool

  predicate HasType(name: string, v: Json) {
    match name
    case "null" => v.Null?
    case "boolean" => v.Bool?
    case "integer" => v.Num? && v.n == v.n.Floor as real
    case "number" => v.Num?
    case "string" => v.Str?
    case "array" => v.Arr?
    case "object" => v.Obj?
    case _ => false
  }

  /** `type` is a name or a list of names. */
  function TypeNames(t: Json): set<string> {
    match t
    case Str(name) => {name}
    case Arr(ts) => set i | 0 <= i < |ts| && ts[i].Str? :: ts[i].s
    case _ => {}
  }

  predicate Matches(names: set<string>, v: Json) {
    exists name :: name in names && HasType(name, v)
  }

  /** `nullable` adds null to the types of the same schema object; without `type` it means
      nothing. */
  function AllowedTypes(m: map<string, Json>): set<string>
    requires TYPE in m
  {
    TypeNames(m[TYPE]) + if NULLABLE in m && m[NULLABLE] == Bool(true) then {NULL_TYPE} else {}
  }

  predicate TypeOk(m: map<string, Json>, v: Json) {
    TYPE in m ==> Matches(AllowedTypes(m), v)
  }

  /** What the model knows about a keyword. */
  datatype Keyword =
    | TypeWord | NullableWord | Annotation | AnyOf | AllOf | OneOf | PrefixItems | Not | Items
    | Properties | AdditionalProperties | Defs | Ref | OtherWord(name: string)

  function KeywordOf(k: string): Keyword {
    match k
    case "type" => TypeWord
    case "nullable" => NullableWord
    case "title" => Annotation
    case "description" => Annotation
    case "default" => Annotation
    case "examples" => Annotation
    case "deprecated" => Annotation
    case "anyOf" => AnyOf
    case "allOf" => AllOf
    case "oneOf" => OneOf
    case "prefixItems" => PrefixItems
    case "not" => Not
    case "items" => Items
    case "properties" => Properties
    case "additionalProperties" => AdditionalProperties
    case "$defs" => Defs
    case "$ref" => Ref
    case _ => OtherWord(k)
  }

  const NULL_TYPE := "null"
  const DEFS := "$defs"
  const PROPERTIES := "properties"

  lemma KeywordsOfNames()
    ensures KeywordOf(TYPE) == TypeWord && KeywordOf(NULLABLE) == NullableWord && KeywordOf(ANY_OF) == AnyOf
    ensures KeywordOf(DEFS) == Defs && KeywordOf(PROPERTIES) == Properties
    ensures TYPE != NULLABLE && TYPE != ANY_OF && NULLABLE != ANY_OF
  {
  }

  /** `#/$defs/<name>`. */
  function RefName(ref: Json): Option<string> {
    if ref.Str? && |ref.s| >= 8 && ref.s[..8] == "#/$defs/" then Some(ref.s[8..]) else None
  }

  function Resolve(root: Json, ref: Json): Option<Json> {
    var name := RefName(ref);
    if name.Some? && root.Obj? && DEFS in root.members && root.members[DEFS].Obj?
       && name.value in root.members[DEFS].members
    then Some(root.members[DEFS].members[name.value])
    else None
  }

  /** Whether schema `s` accepts `v`, following at most `fuel` references in a row. */
  predicate Valid(s: Json, v: Json, root: Json, fuel: nat, other: Constraints)
    decreases fuel, s, 0
  {
    match s
    case Bool(b) => b
    case Obj(m) => TypeOk(m, v) && forall k | k in m :: KeywordOk(KeywordOf(k), m[k], Named(m), v, root, fuel, other)
    case _ => false
  }

  /** The property names that `properties` lists. */
  function Named(m: map<string, Json>): set<string> {
    if PROPERTIES in m && m[PROPERTIES].Obj? then m[PROPERTIES].members.Keys else {}
  }

  /** The entries of a schema list that accept `v`. */
  function Accepting(items: seq<Json>, v: Json, root: Json, fuel: nat, other: Constraints): (r: seq<bool>)
    ensures |r| == |items|
    decreases fuel, items, 1
  {
    seq(|items|, i requires 0 <= i < |items| => Valid(items[i], v, root, fuel, other))
  }

  predicate MembersOk(x: Json, members: map<string, Json>, root: Json, fuel: nat, other: Constraints)
    requires x.Obj?
    decreases fuel, x, 1
  {
    forall p | p in x.members && p in members :: Valid(x.members[p], members[p], root, fuel, other)
  }

  predicate ItemsOk(x: Json, items: seq<Json>, root: Json, fuel: nat, other: Constraints)
    decreases fuel, x, 1
  {
    forall i | 0 <= i < |items| :: Valid(x, items[i], root, fuel, other)
  }

  predicate UnnamedOk(x: Json, members: map<string, Json>, named: set<string>, root: Json, fuel: nat,
      other: Constraints)
    decreases fuel, x, 1
  {
    forall p | p in members && p !in named :: Valid(x, members[p], root, fuel, other)
  }

  predicate RefOk(x: Json, v: Json, root: Json, fuel: nat, other: Constraints)
    decreases fuel, x, 1
  {
    fuel > 0 && Resolve(root, x).Some? && Valid(Resolve(root, x).value, v, root, fuel - 1, other)
  }

  predicate KeywordOk(word: Keyword, x: Json, named: set<string>, v: Json, root: Json, fuel: nat, other: Constraints)
    decreases fuel, x, 2
  {
    match word
    case TypeWord => true
    case NullableWord => true
    case Annotation => true
    case Defs => true
    case AnyOf => x.Arr? && true in Accepting(x.items, v, root, fuel, other)
    case AllOf => x.Arr? && false !in Accepting(x.items, v, root, fuel, other)
    case OneOf => x.Arr? && multiset(Accepting(x.items, v, root, fuel, other))[true] == 1
    case PrefixItems =>
      x.Arr? && (v.Arr? ==> forall i | 0 <= i < |x.items| && i < |v.items| ::
        Valid(x.items[i], v.items[i], root, fuel, other))
    case Not => !Valid(x, v, root, fuel, other)
    case Items => v.Arr? ==> ItemsOk(x, v.items, root, fuel, other)
    case Properties => x.Obj? && (v.Obj? ==> MembersOk(x, v.members, root, fuel, other))
    case AdditionalProperties => v.Obj? ==> UnnamedOk(x, v.members, named, root, fuel, other)
    case Ref => RefOk(x, v, root, fuel, other)
    case OtherWord(k) => other(k, x, v)
  }

  // ---- Which schemas keep their meaning -----------------------------------------------

  /** The names in `inner` allow no more values than those in `outer`: each is also in `outer`,
      or is `integer` where `outer` has `number`, or names no type at all. */
  predicate Within(inner: set<string>, outer: set<string>) {
    forall name | name in inner && Sample(name).Some? :: name in outer || (name == "integer" && "number" in outer)
  }

  /** A value of the type, and of no other type, except that an integer is a number too. */
  function Sample(name: string): Option<Json> {
    match name
    case "null" => Some(Null)
    case "boolean" => Some(Bool(true))
    case "integer" => Some(Num(1.0))
    case "number" => Some(Num(0.5))
    case "string" => Some(Str(""))
    case "array" => Some(Arr([]))
    case "object" => Some(Obj(map[]))
    case _ => None
  }

  /** A sibling `type` of the `anyOf`, which the rewriting overwrites, lets through everything
      that the new type and `nullable` let through. No sibling `type` is the usual case. */
  predicate SiblingTypeIsWide(m: map<string, Json>)
    requires Rewritable(m)
  {
    TYPE in m ==> Within(TypeNames(PlainType(m)) + {NULL_TYPE}, AllowedTypes(m))
  }

  /** The null branch says nothing but its type. */
  predicate NullBranchIsPlain(m: map<string, Json>)
    requires Rewritable(m)
  {
    forall k | k in NullItem(m).members :: KeywordOf(k) in {TypeWord, NullableWord, Annotation}
  }

  /** A well-formed schema in which every rewritten `anyOf` has a plain null branch and no
      narrower sibling `type`, and in which no value that only other keywords look at is
      rewritten. */
  predicate Clean(s: Json)
    decreases s, 0
  {
    match s
    case Bool(_) => true
    case Obj(m) =>
      && (Rewritable(m) ==> SiblingTypeIsWide(m) && NullBranchIsPlain(m))
      && forall k | k in m :: CleanKeyword(KeywordOf(k), m[k])
    case _ => false
  }

  predicate CleanKeyword(word: Keyword, x: Json)
    decreases x, 1
  {
    match word
    case AnyOf => x.Arr? && forall i | 0 <= i < |x.items| :: Clean(x.items[i])
    case AllOf => x.Arr? && forall i | 0 <= i < |x.items| :: Clean(x.items[i])
    case OneOf => x.Arr? && forall i | 0 <= i < |x.items| :: Clean(x.items[i])
    case PrefixItems => x.Arr? && forall i | 0 <= i < |x.items| :: Clean(x.items[i])
    case Not => Clean(x)
    case Items => Clean(x)
    case AdditionalProperties => Clean(x)
    case Properties => x.Obj? && forall p | p in x.members :: Clean(x.members[p])
    case Defs => x.Obj? && forall p | p in x.members :: Clean(x.members[p])
    case OtherWord(_) => Converted(x) == x
    case _ => true
  }

  lemma TypeNamesStay(t: Json)
    ensures TypeNames(Converted(t)) == TypeNames(t)
  {
    ShapeStays(t);
    if t.Arr? {
      forall i | 0 <= i < |t.items|
        ensures Converted(t).items[i].Str? == t.items[i].Str?
        ensures t.items[i].Str? ==> Converted(t).items[i] == t.items[i]
      {
        ShapeStays(t.items[i]);
      }
      hide Converted;
      forall name ensures name in TypeNames(Converted(t)) <==> name in TypeNames(t) {
      }
    }
  }

  /** A dictionary of schemas is not rewritten itself: its values are objects or booleans. */
  lemma SchemaMapStays(x: Json)
    requires x.Obj? && forall p | p in x.members :: Clean(x.members[p])
    ensures Converted(x).Obj? && Converted(x).members.Keys == x.members.Keys
    ensures forall p | p in x.members :: Converted(x).members[p] == Converted(x.members[p])
  {
    assert ANY_OF in x.members ==> Clean(x.members[ANY_OF]);
  }

  /** `$defs` and `properties` keep their names; every schema they list is converted. */
  lemma DictionaryKept(m: map<string, Json>, k: string)
    requires k in {DEFS, PROPERTIES} && Clean(Obj(m))
    ensures Converted(Obj(m)).Obj?
    ensures var c := Converted(Obj(m)).members;
            && (k in c <==> k in m)
            && (k in m ==>
                  && m[k].Obj? && c[k].Obj? && c[k].members.Keys == m[k].members.Keys
                  && forall p | p in m[k].members ::
                    Clean(m[k].members[p]) && c[k].members[p] == Converted(m[k].members[p]))
  {
    KeywordsOfNames();
    FlattenedFacts(m);
    hide Converted, KeywordOf, Rewritable;
    if k in m {
      assert CleanKeyword(KeywordOf(k), m[k]);
      hide Clean;
      SchemaMapStays(m[k]);
    }
  }

  lemma ResolveConverted(root: Json, ref: Json)
    requires Clean(root)
    ensures Resolve(Converted(root), Converted(ref)).Some? == Resolve(root, ref).Some?
    ensures Resolve(root, ref).Some? ==>
              Clean(Resolve(root, ref).value) &&
              Resolve(Converted(root), Converted(ref)).value == Converted(Resolve(root, ref).value)
  {
    ShapeStays(ref);
    ShapeStays(root);
    hide Converted, Clean;
    assert RefName(Converted(ref)) == RefName(ref);
    hide RefName;
    if root.Obj? {
      DictionaryKept(root.members, DEFS);
    }
  }

  lemma NamedConverted(m: map<string, Json>)
    requires Clean(Obj(m))
    ensures Converted(Obj(m)).Obj? && Named(Converted(Obj(m)).members) == Named(m)
  {
    hide Converted, Clean;
    DictionaryKept(m, PROPERTIES);
  }

  lemma {:induction false} ListKept(x: Json, v: Json, root: Json, fuel: nat, other: Constraints)
    requires x.Arr? && (forall i | 0 <= i < |x.items| :: Clean(x.items[i])) && Clean(root)
    ensures Converted(x).Arr?
    ensures Accepting(Converted(x).items, v, Converted(root), fuel, other)
              == Accepting(x.items, v, root, fuel, other)
    decreases fuel, x, 1
  {
    ShapeStays(x);
    hide Converted, Clean, Valid;
    forall i | 0 <= i < |x.items|
      ensures Valid(Converted(x).items[i], v, Converted(root), fuel, other) == Valid(x.items[i], v, root, fuel, other)
    {
      MeaningKept(x.items[i], v, root, fuel, other);
    }
  }

  lemma {:induction false} PrefixKept(x: Json, vs: seq<Json>, root: Json, fuel: nat, other: Constraints)
    requires x.Arr? && (forall i | 0 <= i < |x.items| :: Clean(x.items[i])) && Clean(root)
    ensures Converted(x).Arr? && |Converted(x).items| == |x.items|
    ensures forall i | 0 <= i < |x.items| && i < |vs| ::
              Valid(Converted(x).items[i], vs[i], Converted(root), fuel, other)
                == Valid(x.items[i], vs[i], root, fuel, other)
    decreases fuel, x, 1
  {
    ShapeStays(x);
    hide Converted, Clean, Valid;
    forall i | 0 <= i < |x.items| && i < |vs|
      ensures Valid(Converted(x).items[i], vs[i], Converted(root), fuel, other)
                == Valid(x.items[i], vs[i], root, fuel, other)
    {
      MeaningKept(x.items[i], vs[i], root, fuel, other);
    }
  }

  lemma {:induction false} MembersKept(x: Json, members: map<string, Json>, root: Json, fuel: nat, other: Constraints)
    requires x.Obj? && (forall p | p in x.members :: Clean(x.members[p])) && Clean(root)
    ensures Converted(x).Obj?
    ensures MembersOk(Converted(x), members, Converted(root), fuel, other) == MembersOk(x, members, root, fuel, other)
    decreases fuel, x, 1
  {
    SchemaMapStays(x);
    forall p | p in x.members && p in members
      ensures Valid(Converted(x).members[p], members[p], Converted(root), fuel, other)
                == Valid(x.members[p], members[p], root, fuel, other)
    {
      MeaningKept(x.members[p], members[p], root, fuel, other);
    }
  }

  lemma {:induction false} ItemsKept(x: Json, items: seq<Json>, root: Json, fuel: nat, other: Constraints)
    requires Clean(x) && Clean(root)
    ensures ItemsOk(Converted(x), items, Converted(root), fuel, other) == ItemsOk(x, items, root, fuel, other)
    decreases fuel, x, 1
  {
    forall i | 0 <= i < |items|
      ensures Valid(Converted(x), items[i], Converted(root), fuel, other) == Valid(x, items[i], root, fuel, other)
    {
      MeaningKept(x, items[i], root, fuel, other);
    }
    hide Valid, Converted, Clean;
  }

  lemma {:induction false} UnnamedKept(x: Json, members: map<string, Json>, named: set<string>, root: Json, fuel: nat,
      other: Constraints)
    requires Clean(x) && Clean(root)
    ensures UnnamedOk(Converted(x), members, named, Converted(root), fuel, other)
              == UnnamedOk(x, members, named, root, fuel, other)
    decreases fuel, x, 1
  {
    forall p | p in members && p !in named
      ensures Valid(Converted(x), members[p], Converted(root), fuel, other) == Valid(x, members[p], root, fuel, other)
    {
      MeaningKept(x, members[p], root, fuel, other);
    }
    hide Valid, Converted, Clean;
  }

  /** `anyOf`, `allOf`, `oneOf` and `prefixItems`. */
  lemma {:induction false} ListKeywordKept(word: Keyword, x: Json, named: set<string>, v: Json, root: Json, fuel: nat,
      other: Constraints)
    requires word in {AnyOf, AllOf, OneOf, PrefixItems} && CleanKeyword(word, x) && Clean(root)
    ensures KeywordOk(word, Converted(x), named, v, Converted(root), fuel, other)
              == KeywordOk(word, x, named, v, root, fuel, other)
    decreases fuel, x, 2
  {
    hide Clean, Converted, Valid, Accepting;
    assert x.Arr? && forall i | 0 <= i < |x.items| :: Clean(x.items[i]);
    hide CleanKeyword;
    ListKept(x, v, root, fuel, other);
    PrefixKept(x, if v.Arr? then v.items else [], root, fuel, other);
  }

  lemma {:induction false} RefKept(x: Json, v: Json, root: Json, fuel: nat, other: Constraints)
    requires Clean(root)
    ensures RefOk(Converted(x), v, Converted(root), fuel, other) == RefOk(x, v, root, fuel, other)
    decreases fuel, x, 2
  {
    hide Clean, Converted, Valid, Resolve;
    ResolveConverted(root, x);
    if fuel > 0 && Resolve(root, x).Some? {
      MeaningKept(Resolve(root, x).value, v, root, fuel - 1, other);
    }
  }

  lemma {:induction false} KeywordKept(word: Keyword, x: Json, named: set<string>, v: Json, root: Json, fuel: nat,
      other: Constraints)
    requires CleanKeyword(word, x) && Clean(root)
    ensures KeywordOk(word, Converted(x), named, v, Converted(root), fuel, other)
              == KeywordOk(word, x, named, v, root, fuel, other)
    decreases fuel, x, 3
  {
    hide Clean, Converted, Valid, Accepting, MembersOk, ItemsOk, UnnamedOk, RefOk;
    match word
    case AnyOf => ListKeywordKept(word, x, named, v, root, fuel, other);
    case AllOf => ListKeywordKept(word, x, named, v, root, fuel, other);
    case OneOf => ListKeywordKept(word, x, named, v, root, fuel, other);
    case PrefixItems => ListKeywordKept(word, x, named, v, root, fuel, other);
    case Not => MeaningKept(x, v, root, fuel, other);
    case Items => ItemsKept(x, if v.Arr? then v.items else [], root, fuel, other);
    case Properties => MembersKept(x, if v.Obj? then v.members else map[], root, fuel, other);
    case AdditionalProperties => UnnamedKept(x, if v.Obj? then v.members else map[], named, root, fuel, other);
    case Ref => RefKept(x, v, root, fuel, other);
    case _ =>
  }

  lemma PlainTypeMeaning(m: map<string, Json>, v: Json, root: Json, fuel: nat, other: Constraints)
    requires Rewritable(m)
    ensures Valid(TypeItem(m), v, root, fuel, other) <==> Matches(TypeNames(PlainType(m)), v)
  {
    KeywordsOfNames();
    var t := TypeItem(m);
    OnlyMember(t.members);
    hide KeywordOf, Matches, TypeNames;
    assert t.members == map[TYPE := PlainType(m)];
    assert AllowedTypes(t.members) == TypeNames(PlainType(m));
  }

  lemma NullBranchMeaning(m: map<string, Json>, v: Json, root: Json, fuel: nat, other: Constraints)
    requires Rewritable(m)
    ensures Valid(NullItem(m), v, root, fuel, other) ==> v.Null?
    ensures NullBranchIsPlain(m) && v.Null? ==> Valid(NullItem(m), v, root, fuel, other)
  {
    var n := NullItem(m).members;
    assert n[TYPE] == Str(NULL_TYPE) && AllowedTypes(n) == {NULL_TYPE};
    OneName(NULL_TYPE, v);
    assert HasType(NULL_TYPE, v) <==> v.Null?;
    hide KeywordOf, HasType, Matches, Rewritable;
  }

  lemma OneName(name: string, v: Json)
    ensures Matches({name}, v) <==> HasType(name, v)
  {
    hide HasType;
    assert name in {name};
  }

  lemma BranchesInOrder(m: map<string, Json>)
    requires Rewritable(m)
    ensures m[ANY_OF].Arr? && m[ANY_OF].items in {[TypeItem(m), NullItem(m)], [NullItem(m), TypeItem(m)]}
  {
    var xs := m[ANY_OF].items;
    assert xs == [xs[0], xs[1]];
  }

  /** The `anyOf` of a rewritten node says: the plain type, or what the null branch accepts. */
  lemma AnyOfMeaning(m: map<string, Json>, named: set<string>, v: Json, root: Json, fuel: nat, other: Constraints)
    requires Rewritable(m)
    ensures KeywordOk(AnyOf, m[ANY_OF], named, v, root, fuel, other)
            <==> Matches(TypeNames(PlainType(m)), v) || Valid(NullItem(m), v, root, fuel, other)
  {
    assert ANY_OF in m;
    hide Rewritable, TypeItem, NullItem, PlainType, Matches, TypeNames, Valid;
    BranchesInOrder(m);
    PlainTypeMeaning(m, v, root, fuel, other);
    var xs := m[ANY_OF].items;
    assert Accepting(xs, v, root, fuel, other)
      == [Valid(xs[0], v, root, fuel, other), Valid(xs[1], v, root, fuel, other)];
    hide Accepting;
  }

  /** The keywords that the rewriting of one dictionary replaces. */
  function Replaced(m: map<string, Json>): set<string> {
    {TYPE, NULLABLE} + if Rewritable(m) then {ANY_OF} else {}
  }

  lemma UntouchedKeywords(m: map<string, Json>)
    ensures Converted(Obj(m)).Obj?
    ensures var c := Converted(Obj(m)).members;
            && (forall k :: k in c && k !in {TYPE, NULLABLE} <==> k in m && k !in Replaced(m))
            && forall k | k in m && k !in Replaced(m) :: c[k] == Converted(m[k])
  {
    KeywordsOfNames();
    FlattenedFacts(m);
    hide Converted, Rewritable, KeywordOf;
  }

  /** The keywords that a rewriting does not touch mean the same before and after. */
  lemma {:induction false} KeywordsKept(m: map<string, Json>, v: Json, root: Json, fuel: nat, other: Constraints)
    requires Clean(Obj(m)) && Clean(root)
    ensures Converted(Obj(m)).Obj?
    ensures OthersOk(Converted(Obj(m)).members, Named(m), {TYPE, NULLABLE}, v, Converted(root), fuel, other)
            <==> OthersOk(m, Named(m), Replaced(m), v, root, fuel, other)
    decreases fuel, Obj(m), -1
  {
    assert forall k | k in m :: CleanKeyword(KeywordOf(k), m[k]);
    hide Converted, Clean, CleanKeyword, Rewritable, KeywordOk, KeywordOf, Named, Replaced;
    UntouchedKeywords(m);
    forall k | k in m
      ensures KeywordOk(KeywordOf(k), Converted(m[k]), Named(m), v, Converted(root), fuel, other)
                == KeywordOk(KeywordOf(k), m[k], Named(m), v, root, fuel, other)
    {
      KeywordKept(KeywordOf(k), m[k], Named(m), v, root, fuel, other);
    }
  }

  // ---- What one rewriting does to the type constraint ---------------------------------

  lemma SampleFits(name: string)
    requires Sample(name).Some?
    ensures HasType(name, Sample(name).value)
  {
  }

  lemma SampleIsExclusive(name: string, wider: string)
    requires Sample(name).Some? && HasType(wider, Sample(name).value)
    ensures name == wider || (name == "integer" && wider == "number")
  {
  }

  lemma OnlyTypesMatch(name: string, v: Json)
    requires HasType(name, v)
    ensures Sample(name).Some? && (name == "integer" ==> HasType("number", v))
  {
  }

  lemma WithinMeansFewerValues(inner: set<string>, outer: set<string>)
    ensures Within(inner, outer) <==> forall v :: Matches(inner, v) ==> Matches(outer, v)
  {
    hide HasType, Sample;
    if Within(inner, outer) {
      forall v | Matches(inner, v) ensures Matches(outer, v) {
        var name :| name in inner && HasType(name, v);
        OnlyTypesMatch(name, v);
        assert HasType(if name in outer then name else "number", v);
      }
    } else {
      var name :| name in inner && Sample(name).Some? && !(name in outer || (name == "integer" && "number" in outer));
      var v := Sample(name).value;
      SampleFits(name);
      assert Matches(inner, v);
      if Matches(outer, v) {
        var wider :| wider in outer && HasType(wider, v);
        SampleIsExclusive(name, wider);
        assert false;
      }
    }
  }

  lemma MatchesEither(a: set<string>, name: string, v: Json)
    ensures Matches(a + {name}, v) <==> Matches(a, v) || HasType(name, v)
  {
    hide HasType;
    assert forall n :: n in a + {name} <==> n in a || n == name;
    assert name in a + {name};
  }

  /** The types of one node before and after: what the `type` and the `anyOf` demanded together,
      and what the new `type` and `nullable` demand. */
  lemma TypesAfterwards(m: map<string, Json>, v: Json)
    requires Rewritable(m)
    ensures Converted(Obj(m)).Obj?
    ensures TypeOk(Converted(Obj(m)).members, v) <==> Matches(TypeNames(PlainType(m)), v) || v.Null?
  {
    FlattenedFacts(m);
    var c := Converted(Obj(m)).members;
    KeywordsOfNames();
    assert Flattened(m)[TYPE] == PlainType(m) && Flattened(m)[NULLABLE] == Bool(true);
    ScalarsStay(Bool(true));
    TypeNamesStay(PlainType(m));
    assert HasType(NULL_TYPE, v) <==> v.Null?;
    hide Converted, Flattened, Rewritable, TypeNames, Matches, HasType, KeywordOf;
    assert AllowedTypes(c) == TypeNames(PlainType(m)) + {NULL_TYPE};
    MatchesEither(TypeNames(PlainType(m)), NULL_TYPE, v);
  }

  /** Null passed the `anyOf`. */
  predicate NullPasses(m: map<string, Json>, root: Json, fuel: nat, other: Constraints)
    requires Rewritable(m)
  {
    Matches(TypeNames(PlainType(m)), Null) || Valid(NullItem(m), Null, root, fuel, other)
  }

  /** Exactly when rewriting one node keeps its type constraint for all values: its own `type`,
      if it has one, is wide enough, and null passed the `anyOf`. */
  lemma RewriteIsExact(m: map<string, Json>, named: set<string>, root: Json, fuel: nat, other: Constraints)
    requires Rewritable(m)
    ensures Converted(Obj(m)).Obj?
    ensures (forall v :: TypeOk(Converted(Obj(m)).members, v)
                         <==> TypeOk(m, v) && KeywordOk(AnyOf, m[ANY_OF], named, v, root, fuel, other))
            <==> SiblingTypeIsWide(m) && NullPasses(m, root, fuel, other)
  {
    var names := TypeNames(PlainType(m));
    if TYPE in m {
      WithinMeansFewerValues(names + {NULL_TYPE}, AllowedTypes(m));
    }
    forall v
      ensures TypeOk(Converted(Obj(m)).members, v) <==> Matches(names, v) || v.Null?
      ensures KeywordOk(AnyOf, m[ANY_OF], named, v, root, fuel, other) <==>
                Matches(names, v) || Valid(NullItem(m), v, root, fuel, other)
      ensures Valid(NullItem(m), v, root, fuel, other) ==> v.Null?
      ensures Matches(names + {NULL_TYPE}, v) <==> Matches(names, v) || v.Null?
    {
      TypesAfterwards(m, v);
      AnyOfMeaning(m, named, v, root, fuel, other);
      NullBranchMeaning(m, v, root, fuel, other);
      assert HasType(NULL_TYPE, v) <==> v.Null?;
      hide *;
      MatchesEither(names, NULL_TYPE, v);
    }
    hide Converted, KeywordOk, Valid, Matches, TypeNames, Rewritable, Within, HasType;
  }

  const INTEGER: Json := Obj(map[TYPE := Str("integer")])
  const NIL: Json := Obj(map[TYPE := Str("null")])
  const NARROW: map<string, Json> := map[ANY_OF := Arr([INTEGER, NIL]), TYPE := Str("integer")]

  lemma NarrowIsRewritable()
    ensures Rewritable(NARROW)
  {
    assert INTEGER.members.Keys == {TYPE};
    assert |INTEGER.members| == |INTEGER.members.Keys|;
    assert IsTypeItem(INTEGER) && IsNullItem(NIL);
    hide IsTypeItem, IsNullItem;
  }

  /** What is left of the type constraint after a conversion. */
  lemma TypeKept(m: map<string, Json>, v: Json, root: Json, fuel: nat, other: Constraints)
    requires Clean(Obj(m))
    ensures Converted(Obj(m)).Obj?
    ensures var c := Converted(Obj(m)).members;
            TypeOk(c, v) ==
            (TypeOk(m, v) && (Rewritable(m) ==> KeywordOk(AnyOf, m[ANY_OF], Named(m), v, root, fuel, other)))
  {
    if Rewritable(m) {
      assert SiblingTypeIsWide(m) && NullBranchIsPlain(m) && ANY_OF in m;
      hide Converted, KeywordOk, Valid, Matches, TypeNames, Rewritable, Clean, SiblingTypeIsWide, NullBranchIsPlain,
        TypeOk;
      NullBranchMeaning(m, Null, root, fuel, other);
      RewriteIsExact(m, Named(m), root, fuel, other);
    } else {
      FlattenedFacts(m);
      assert Flattened(m) == m;
      if TYPE in m {
        TypeNamesStay(m[TYPE]);
      }
      if NULLABLE in m {
        ShapeStays(m[NULLABLE]);
      }
      hide Converted, KeywordOk, Flattened, Rewritable, Clean, Matches, Valid, TypeNames;
    }
  }

  /** The keywords that constrain a value on their own. */
  predicate OthersOk(m: map<string, Json>, named: set<string>, but: set<string>, v: Json, root: Json, fuel: nat,
      other: Constraints)
  {
    forall k | k in m && k !in but :: KeywordOk(KeywordOf(k), m[k], named, v, root, fuel, other)
  }

  lemma ValidIsTypeAndOthers(m: map<string, Json>, v: Json, root: Json, fuel: nat, other: Constraints)
    ensures Valid(Obj(m), v, root, fuel, other) <==>
              TypeOk(m, v) && OthersOk(m, Named(m), {TYPE, NULLABLE}, v, root, fuel, other)
  {
    FreeKeywords(m, v, root, fuel, other);
    hide KeywordOk, TypeOk, Named;
  }

  lemma NarrowType()
    ensures Rewritable(NARROW) && Converted(Obj(NARROW)).Obj?
    ensures !TypeOk(NARROW, Null) && TypeOk(Converted(Obj(NARROW)).members, Null)
  {
    hide Converted, Rewritable;
    NarrowIsRewritable();
    TypesAfterwards(NARROW, Null);
    OneName("integer", Null);
    assert AllowedTypes(NARROW) == {"integer"};
    hide Matches;
  }

  /** With a sibling `type` that leaves null out, the schema refuses null before and accepts it
      after. */
  lemma NarrowSiblingTypeIsLost(root: Json, root': Json, fuel: nat, other: Constraints)
    ensures !Valid(Obj(NARROW), Null, root, fuel, other)
    ensures Valid(Converted(Obj(NARROW)), Null, root', fuel, other)
  {
    NarrowType();
    var c := Converted(Obj(NARROW)).members;
    assert NARROW.Keys == {ANY_OF, TYPE};
    NarrowIsRewritable();
    assert Replaced(NARROW) == {TYPE, NULLABLE} + {ANY_OF};
    hide Converted, Rewritable, Valid, TypeOk, Replaced, KeywordOk, Named;
    UntouchedKeywords(NARROW);
    ValidIsTypeAndOthers(NARROW, Null, root, fuel, other);
    ValidIsTypeAndOthers(c, Null, root', fuel, other);
    assert forall k :: !(k in c && k !in {TYPE, NULLABLE});
  }

  lemma OthersWithAnyOf(m: map<string, Json>, named: set<string>, v: Json, root: Json, fuel: nat, other: Constraints)
    requires Rewritable(m)
    ensures OthersOk(m, named, {TYPE, NULLABLE}, v, root, fuel, other) <==>
              OthersOk(m, named, Replaced(m), v, root, fuel, other)
                && KeywordOk(AnyOf, m[ANY_OF], named, v, root, fuel, other)
  {
    KeywordsOfNames();
    assert Replaced(m) == {TYPE, NULLABLE} + {ANY_OF};
    assert ANY_OF in m && KeywordOf(ANY_OF) == AnyOf && ANY_OF !in {TYPE, NULLABLE};
    hide KeywordOk, KeywordOf, Replaced, Rewritable;
  }

  /** Main result: for every clean schema, every value and every number of followed references,
      the converted schema accepts the value exactly when the original does. */
  lemma {:induction false} MeaningKept(s: Json, v: Json, root: Json, fuel: nat, other: Constraints)
    requires Clean(s) && Clean(root)
    ensures Valid(Converted(s), v, Converted(root), fuel, other) == Valid(s, v, root, fuel, other)
    decreases fuel, s, 0
  {
    ShapeStays(s);
    if s.Obj? {
      var m, c := s.members, Converted(s).members;
      assert Rewritable(m) ==> ANY_OF in m;
      hide Valid, Converted, Clean, Rewritable, KeywordOk, TypeOk, KeywordOf, Named, OthersOk;
      assert !Rewritable(m) ==> Replaced(m) == {TYPE, NULLABLE};
      hide Replaced;
      ValidIsTypeAndOthers(m, v, root, fuel, other);
      ValidIsTypeAndOthers(c, v, Converted(root), fuel, other);
      NamedConverted(m);
      TypeKept(m, v, root, fuel, other);
      KeywordsKept(m, v, root, fuel, other);
      if Rewritable(m) {
        OthersWithAnyOf(m, Named(m), v, root, fuel, other);
      }
    }
  }

  /** `type` and `nullable` are looked at together, not one by one. */
  lemma FreeKeywords(m: map<string, Json>, v: Json, root: Json, fuel: nat, other: Constraints)
    ensures forall k | k in m && k in {TYPE, NULLABLE} :: KeywordOk(KeywordOf(k), m[k], Named(m), v, root, fuel, other)
  {
    KeywordsOfNames();
    hide KeywordOf;
  }
}
