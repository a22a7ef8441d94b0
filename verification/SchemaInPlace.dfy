/** `_convert_to_openapi_nullable` on dictionaries and lists that it changes in place. */
module SchemaInPlace {
  import opened Schema
  import opened Options

  /** A value inside a dictionary or list: a scalar, or a reference. */
  datatype Slot = Plain(j: Json) | At(node: Node)

  datatype Shape = Dict(slots: map<string, Slot>) | List(elements: seq<Slot>)

  /** A dictionary or a list. `json.loads` and pydantic give trees: no two references inside one
      node lead to the same node. */
  class Node {
    var shape: Shape
    ghost var Repr: set<Node>

    ghost predicate Valid()
      reads this, Repr
      decreases Repr
    {
      && this in Repr
      && match shape
         case Dict(m) =>
           && (forall k | k in m :: Owns(m[k]))
           && (forall k, l | k in m && l in m && k != l :: Apart(m[k], m[l]))
         case List(xs) =>
           && (forall i | 0 <= i < |xs| :: Owns(xs[i]))
           && (forall i, j | 0 <= i < j < |xs| :: Apart(xs[i], xs[j]))
    }

    /** A scalar, or a tree below this node. */
    ghost predicate Owns(s: Slot)
      requires this in Repr
      reads this, Repr
      decreases Repr, 0
    {
      match s
      case Plain(j) => !j.Obj? && !j.Arr?
      case At(n) => n in Repr && this !in n.Repr && n.Repr <= Repr && n.Valid()
    }

    ghost function ValueOf(s: Slot): Json
      requires this in Repr && Owns(s)
      reads this, Repr
      decreases Repr, 0
    {
      match s
      case Plain(j) => j
      case At(n) => n.Contents()
    }

    /** The JSON value of the tree. */
    ghost function Contents(): (j: Json)
      requires Valid()
      reads this, Repr
      ensures j.Obj? || j.Arr?
      decreases Repr, 1
    {
      match shape
      case Dict(m) => Obj(map k | k in m :: ValueOf(m[k]))
      case List(xs) =>
        Arr(seq(|xs|, i requires 0 <= i < |xs| && this in Repr && Owns(xs[i]) reads this, Repr => ValueOf(xs[i])))
    }

    /** The tests on the slots are those on the values. */
    lemma ItemKinds(s: Slot)
      requires this in Repr && Owns(s)
      ensures IsNullItem(ValueOf(s)) <==> IsNullSlot(s)
      ensures IsTypeItem(ValueOf(s)) <==> IsTypeSlot(s)
    {
      if s.At? {
        var j := s.node.Contents();
        if s.node.shape.Dict? {
          var m := s.node.shape.slots;
          assert j.members.Keys == m.Keys;
          assert |j.members| == |j.members.Keys| == |m.Keys| == |m|;
          if TYPE in m {
            assert j.members[TYPE] == s.node.ValueOf(m[TYPE]);
          }
        }
      }
    }

    ghost predicate HasTwoBranches()
      requires Valid() && shape.Dict?
      reads this, Repr
    {
      && ANY_OF in shape.slots && shape.slots[ANY_OF].At? && Owns(shape.slots[ANY_OF])
      && shape.slots[ANY_OF].node.shape.List? && |shape.slots[ANY_OF].node.shape.elements| == 2
    }

    lemma BranchesOf()
      requires Valid() && shape.Dict?
      ensures var members := Contents().members;
              HasTwoBranches() <==> ANY_OF in members && members[ANY_OF].Arr? && |members[ANY_OF].items| == 2
      ensures HasTwoBranches() ==>
                var list := shape.slots[ANY_OF].node;
                var xs := list.shape.elements;
                && list.Valid() && list.Owns(xs[0]) && list.Owns(xs[1])
                && Contents().members[ANY_OF].items == [list.ValueOf(xs[0]), list.ValueOf(xs[1])]
    {
      if ANY_OF in shape.slots && shape.slots[ANY_OF].At? {
        var list := shape.slots[ANY_OF].node;
        assert Owns(shape.slots[ANY_OF]);
        assert list.Valid();
        assert Contents().members[ANY_OF] == list.Contents();
        if HasTwoBranches() {
          var xs := list.shape.elements;
          assert list.Contents().items == [list.ValueOf(xs[0]), list.ValueOf(xs[1])];
        }
      }
    }

    /** The loop over the two branches. */
    method FindBranches(anyOf: seq<Slot>) returns (nullItem: Option<Node>, typeItem: Option<Node>)
      requires |anyOf| == 2
      ensures nullItem.Some? <==> IsNullSlot(anyOf[0]) || IsNullSlot(anyOf[1])
      ensures typeItem.Some? <==> IsTypeSlot(anyOf[0]) || IsTypeSlot(anyOf[1])
      ensures typeItem.Some? ==> At(typeItem.value) in anyOf && IsTypeSlot(At(typeItem.value))
    {
      nullItem, typeItem := None, None;
      for i := 0 to 2
        invariant nullItem.Some? <==> exists k :: 0 <= k < i && IsNullSlot(anyOf[k])
        invariant typeItem.Some? <==> exists k :: 0 <= k < i && IsTypeSlot(anyOf[k])
        invariant typeItem.Some? ==> At(typeItem.value) in anyOf[..i] && IsTypeSlot(At(typeItem.value))
      {
        var item := anyOf[i];
        if item.At? && item.node.shape.Dict? {
          var slots := item.node.shape.slots;
          if TYPE in slots && slots[TYPE] == Plain(Str("null")) {
            nullItem := Some(item.node);
          } else if TYPE in slots && |slots| == 1 {
            typeItem := Some(item.node);
          }
        }
      }
    }

    /** The part that tests one dictionary and deletes and sets its keys. */
    method Flatten()
      requires Valid() && shape.Dict?
      modifies this`shape
      ensures Valid() && shape.Dict?
      ensures Contents() == Obj(Flattened(old(Contents()).members))
    {
      TestsAgree();
      hide Flattened, Rewritable, IsNullSlot, IsTypeSlot;
      var obj := shape.slots;
      if ANY_OF !in obj || obj[ANY_OF].Plain? || obj[ANY_OF].node.shape.Dict?
        || |obj[ANY_OF].node.shape.elements| != 2 {
        NotFlattened(Contents().members);
        return;
      }
      var nullItem, typeItem := FindBranches(obj[ANY_OF].node.shape.elements);
      if nullItem.Some? && typeItem.Some? {
        Rewrite(typeItem.value);
      } else {
        NotFlattened(Contents().members);
      }
    }

    /** The tests on the two branches are those on their values. */
    lemma TestsAgree()
      requires Valid() && shape.Dict?
      ensures HasTwoBranches() <==>
                && ANY_OF in shape.slots && shape.slots[ANY_OF].At?
                && shape.slots[ANY_OF].node.shape.List? && |shape.slots[ANY_OF].node.shape.elements| == 2
      ensures Rewritable(Contents().members) <==>
                && HasTwoBranches()
                && var xs := shape.slots[ANY_OF].node.shape.elements;
                && (IsNullSlot(xs[0]) || IsNullSlot(xs[1])) && (IsTypeSlot(xs[0]) || IsTypeSlot(xs[1]))
    {
      assert ANY_OF in shape.slots ==> Owns(shape.slots[ANY_OF]);
      BranchesOf();
      if HasTwoBranches() {
        var list := shape.slots[ANY_OF].node;
        var xs := list.shape.elements;
        list.ItemKinds(xs[0]);
        list.ItemKinds(xs[1]);
        hide IsNullItem, IsNullSlot;
      }
    }

    /** `del obj["anyOf"]`, `obj.update(type_item)`, `obj["nullable"] = True`. */
    method Rewrite(typeItem: Node)
      requires Valid() && shape.Dict? && Rewritable(Contents().members) && HasTwoBranches()
      requires At(typeItem) in shape.slots[ANY_OF].node.shape.elements && IsTypeSlot(At(typeItem))
      modifies this`shape
      ensures Valid() && shape.Dict?
      ensures Contents() == Obj(Flattened(old(Contents()).members))
    {
      ghost var m := Contents().members;
      var update := typeItem.shape.slots;
      OnlyMember(update);
      NewSlotsFit(typeItem);
      hide Flattened, Rewritable;
      var obj := shape.slots;
      obj := obj - {ANY_OF};
      obj := obj + update;
      obj := obj[NULLABLE := Plain(Bool(true))];
      assert obj == NewSlots(shape.slots, typeItem.shape.slots[TYPE]);
      ReplaceSlots(obj, Flattened(m));
    }

    function NewSlots(slots: map<string, Slot>, typeSlot: Slot): map<string, Slot> {
      (slots - {ANY_OF})[TYPE := typeSlot][NULLABLE := Plain(Bool(true))]
    }

    lemma NewSlotsFit(typeItem: Node)
      requires Valid() && shape.Dict? && Rewritable(Contents().members) && HasTwoBranches()
      requires At(typeItem) in shape.slots[ANY_OF].node.shape.elements && IsTypeSlot(At(typeItem))
      ensures var m, obj := Contents().members, NewSlots(shape.slots, typeItem.shape.slots[TYPE]);
              && obj.Keys == Flattened(m).Keys
              && (forall k | k in obj :: Owns(obj[k]) && ValueOf(obj[k]) == Flattened(m)[k])
              && forall k, l | k in obj && l in obj && k != l :: Apart(obj[k], obj[l])
    {
      TypeSlotFits(typeItem);
      hide Rewritable, IsTypeSlot;
      var m, obj := Contents().members, NewSlots(shape.slots, typeItem.shape.slots[TYPE]);
      forall k | k in obj
        ensures Owns(obj[k]) && ValueOf(obj[k]) == Flattened(m)[k]
      {
        assert k !in {TYPE, NULLABLE} ==> obj[k] == shape.slots[k] && m[k] == ValueOf(shape.slots[k]);
      }
    }

    /** The slot that the type branch lends to this dictionary. */
    lemma TypeSlotFits(typeItem: Node)
      requires Valid() && shape.Dict? && Rewritable(Contents().members) && HasTwoBranches()
      requires At(typeItem) in shape.slots[ANY_OF].node.shape.elements && IsTypeSlot(At(typeItem))
      ensures var s := typeItem.shape.slots[TYPE];
              && Owns(s) && ValueOf(s) == PlainType(Contents().members)
              && forall k | k in shape.slots && k != ANY_OF :: Apart(s, shape.slots[k]) && Apart(shape.slots[k], s)
    {
      BranchesOf();
      var list := shape.slots[ANY_OF].node;
      var xs := list.shape.elements;
      list.ItemKinds(xs[0]);
      list.ItemKinds(xs[1]);
      assert list.Owns(At(typeItem));
      assert typeItem.Contents() == TypeItem(Contents().members);
      var s := typeItem.shape.slots[TYPE];
      assert typeItem.Owns(s);
      assert typeItem.Contents().members[TYPE] == typeItem.ValueOf(s);
      if s.At? {
        assert s.node.Repr <= typeItem.Repr <= list.Repr <= Repr;
        forall k | k in shape.slots && k != ANY_OF ensures Apart(s, shape.slots[k]) && Apart(shape.slots[k], s) {
          assert Apart(shape.slots[ANY_OF], shape.slots[k]);
        }
      }
    }

    method ReplaceSlots(obj: map<string, Slot>, ghost values: map<string, Json>)
      requires this in Repr && obj.Keys == values.Keys
      requires forall k | k in obj :: Owns(obj[k]) && ValueOf(obj[k]) == values[k]
      requires forall k, l | k in obj && l in obj && k != l :: Apart(obj[k], obj[l])
      modifies this`shape
      ensures Valid() && shape == Dict(obj) && Contents() == Obj(values)
    {
      shape := Dict(obj);
      forall k | k in obj ensures Owns(obj[k]) && ValueOf(obj[k]) == values[k] {
      }
    }
  }

  /** `_convert_to_openapi_nullable`: the tree below `node` becomes its conversion. The nodes stay
      the same objects, and nothing outside of the tree changes. */
  method Convert(node: Node)
    requires node.Valid() && Sized(node.Contents())
    modifies node.Repr
    ensures node.Valid() && node.Repr == old(node.Repr)
    ensures node.Contents() == Converted(old(node.Contents()))
    ensures IsConversion(old(node.Contents()), node.Contents())
    decreases node.Repr, 1
  {
    hide Converted, Sized, IsConversion;
    ConvertsExactly(node.Contents(), Converted(node.Contents()));
    if node.shape.Dict? {
      ConvertDict(node);
    } else {
      ConvertList(node);
    }
  }

  method ConvertDict(node: Node)
    requires node.Valid() && node.shape.Dict? && Sized(node.Contents())
    modifies node.Repr
    ensures node.Valid() && node.Repr == old(node.Repr)
    ensures node.Contents() == Converted(old(node.Contents()))
    decreases node.Repr, 0, 2
  {
    ghost var j := node.Contents();
    node.Flatten();
    FlattenedFacts(j.members);
    hide Converted, Flattened, Sized;
    ghost var flat := node.Contents().members;
    ghost var slots := node.shape.slots;
    assert forall k | k in slots :: node.ValueOf(slots[k]) == flat[k];
    ConvertValues(node);
    assert node.Contents().members == Converted(j).members;
  }

  method ConvertList(node: Node)
    requires node.Valid() && node.shape.List? && Sized(node.Contents())
    modifies node.Repr
    ensures node.Valid() && node.Repr == old(node.Repr)
    ensures node.Contents() == Converted(old(node.Contents()))
    decreases node.Repr, 0, 2
  {
    ghost var j := node.Contents();
    ghost var elements := node.shape.elements;
    assert forall i | 0 <= i < |elements| :: node.ValueOf(elements[i]) == j.items[i];
    assert forall i | 0 <= i < |j.items| :: Sized(j.items[i]) && Converted(j).items[i] == Converted(j.items[i]);
    assert Converted(j).Arr? && |Converted(j).items| == |j.items|;
    hide Converted, Sized;
    ConvertElements(node);
    assert node.Contents().items == Converted(j).items;
  }

  /** Convert one value of `node`; its other values stay. */
  method ConvertSlot(node: Node, value: Slot, ghost others: set<Slot>)
    requires node.Valid() && node.Owns(value) && Sized(node.ValueOf(value))
    requires forall s | s in others :: node.Owns(s) && Apart(value, s)
    modifies if value.At? then value.node.Repr else {}
    ensures node.Owns(value) && node.ValueOf(value) == Converted(old(node.ValueOf(value)))
    ensures value.At? ==> value.node.Repr == old(value.node.Repr)
    ensures forall s | s in others :: node.Owns(s) && node.ValueOf(s) == old(node.ValueOf(s))
    ensures forall s | s in others && s.At? :: s.node.Repr == old(s.node.Repr)
    decreases if value.At? then value.node.Repr else {}, 2
  {
    hide Converted, Sized;
    if value.At? {
      Convert(value.node);
      forall s | s in others
        ensures node.Owns(s) && node.ValueOf(s) == old(node.ValueOf(s))
        ensures s.At? ==> s.node.Repr == old(s.node.Repr)
      {
        if s.At? {
          assert old(node.Owns(s) && Apart(value, s) && s.node.Valid());
          assert s.node !in old(value.node.Repr) && s.node.Valid();
        }
      }
    } else {
      ScalarsStay(value.j);
    }
  }

  method ConvertValue(node: Node, k: string)
    requires node.Valid() && node.shape.Dict? && k in node.shape.slots
    requires Sized(node.ValueOf(node.shape.slots[k]))
    modifies node.Repr - {node}
    ensures node.Valid()
    ensures forall l | l in node.shape.slots ::
              node.ValueOf(node.shape.slots[l]) ==
                var was := old(node.ValueOf(node.shape.slots[l]));
                if l == k then Converted(was) else was
    decreases node.Repr, 0, 0
  {
    hide Converted, Sized;
    var slots := node.shape.slots;
    ConvertSlot(node, slots[k], set l | l in slots && l != k :: slots[l]);
  }

  method ConvertValues(node: Node)
    requires node.Valid() && node.shape.Dict?
    requires forall k | k in node.shape.slots :: Sized(node.ValueOf(node.shape.slots[k]))
    modifies node.Repr - {node}
    ensures node.Valid()
    ensures forall k | k in node.shape.slots ::
              node.ValueOf(node.shape.slots[k]) == Converted(old(node.ValueOf(node.shape.slots[k])))
    decreases node.Repr, 0, 1
  {
    hide Converted, Sized;
    var slots := node.shape.slots;
    var left := slots.Keys;
    while left != {}
      invariant left <= slots.Keys && node.Valid()
      invariant forall k | k in slots :: node.ValueOf(slots[k]) ==
                  if k in left then old(node.ValueOf(slots[k])) else Converted(old(node.ValueOf(slots[k])))
    {
      var k :| k in left;
      ConvertValue(node, k);
      left := left - {k};
    }
  }

  method ConvertElements(node: Node)
    requires node.Valid() && node.shape.List?
    requires forall i | 0 <= i < |node.shape.elements| :: Sized(node.ValueOf(node.shape.elements[i]))
    modifies node.Repr - {node}
    ensures node.Valid()
    ensures forall i | 0 <= i < |node.shape.elements| ::
              node.ValueOf(node.shape.elements[i]) == Converted(old(node.ValueOf(node.shape.elements[i])))
    decreases node.Repr, 0, 0
  {
    hide Converted, Sized;
    var elements := node.shape.elements;
    for i := 0 to |elements|
      invariant node.Valid()
      invariant forall k | 0 <= k < |elements| :: node.ValueOf(elements[k]) ==
                  if i <= k then old(node.ValueOf(elements[k])) else Converted(old(node.ValueOf(elements[k])))
    {
      ConvertSlot(node, elements[i], set k | 0 <= k < |elements| && k != i :: elements[k]);
    }
  }

  lemma NotFlattened(m: map<string, Json>)
    requires !Rewritable(m)
    ensures Flattened(m) == m
  {
  }

  predicate IsNullSlot(s: Slot)
    reads if s.At? then {s.node} else {}
  {
    s.At? && s.node.shape.Dict? && TYPE in s.node.shape.slots && s.node.shape.slots[TYPE] == Plain(Str("null"))
  }

  predicate IsTypeSlot(s: Slot)
    reads if s.At? then {s.node} else {}
  {
    s.At? && s.node.shape.Dict? && !IsNullSlot(s) && TYPE in s.node.shape.slots && |s.node.shape.slots| == 1
  }

  ghost predicate Apart(s: Slot, t: Slot)
    reads if s.At? then {s.node} else {}, if t.At? then {t.node} else {}
  {
    s.At? && t.At? ==> s.node.Repr !! t.node.Repr
  }
}
