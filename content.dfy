/** Vocabulary shared by the member helper and the reflective reader.

    The reflection the loader relies on is replaced by plain records
    (`TypeShape`, `PropertyInfo`, `FieldInfo`); the object heap is a map from
    object id to an object whose slots map members to values; the binary input
    is a sequence of tokens read through a cursor.  Two collaborators whose
    internals are not part of this model are given here as small stand-ins:
    the stream side of `ContentReader` (class `ContentReader`) and the CLR heap
    (class `Heap`). */
module Content {

  datatype Option<+T> = None | Some(value: T)

  /** The exceptions the two core files throw, by the condition that raises them. */
  datatype LoadError =
    | CantSerializeMember          // a rejected member carries [ContentSerializer]
    | ReadOnlySharedResource       // a shared-resource member without a setter
    | ReadOnlyNullMember           // a read-only member whose current value is null
    | SharedResourceTypeMismatch   // a resolved shared resource of the wrong type ("Bad Xnb")
    | NullTypeReader               // a fixup on a member whose type has no reader
    | NullResolvedResource         // a fixup whose resolved shared resource is null
    | ArgumentNull                 // Read called with a null input
    | NoDefaultConstructor         // a reference type without a zero-argument constructor
    | ReaderConstructedNewInstance // the base reader returned another instance
    | BadStream                    // the stream had no suitable token at the cursor

  datatype Result<+T> = Success(value: T) | Failure(error: LoadError)

  type ObjId = nat
  type TypeId = string

  /** The two base types for which no base reader is looked up. */
  const ObjectTypeName: TypeId := "System.Object"
  const ValueTypeName: TypeId := "System.ValueType"

  /** A slot of an object: a property and a field of the same name are different slots. */
  datatype MemberRef = Property(name: string) | Field(name: string)

  datatype Value = Null | Ref(id: ObjId)

  /** A heap object: its runtime type and the values of its slots; an absent slot holds null. */
  datatype Obj = Obj(ty: TypeId, slots: map<MemberRef, Value>)

  function SlotOf(o: Obj, m: MemberRef): Value
  {
    if m in o.slots then o.slots[m] else Null
  }

  /** `after` differs from `before` at most in the slot `m` of object `id`:
      the same objects, the same runtime types, every other slot as it was. */
  ghost predicate ChangesOnlySlot(before: map<ObjId, Obj>, after: map<ObjId, Obj>, id: ObjId, m: MemberRef)
    requires id in before
  {
    && after.Keys == before.Keys
    && after[id].ty == before[id].ty
    && (forall m' :: m' != m ==> SlotOf(after[id], m') == SlotOf(before[id], m'))
    && (forall o :: o in before && o != id ==> after[o] == before[o])
  }

  /** The objects after the slot `m` of object `id` has been set to `v`. */
  function WithSlot(objects: map<ObjId, Obj>, id: ObjId, m: MemberRef, v: Value): (r: map<ObjId, Obj>)
    requires id in objects
    ensures ChangesOnlySlot(objects, r, id, m) && SlotOf(r[id], m) == v
  {
    objects[id := objects[id].(slots := objects[id].slots[m := v])]
  }

  // ---------------------------------------------------------------------
  // Reflection records

  /** [ContentSerializer] with its SharedResource flag. */
  datatype SerializerAttribute = SerializerAttribute(sharedResource: bool)

  /** The serialization attributes a member carries: [ContentSerializerIgnore]
      and, optionally, [ContentSerializer]. */
  datatype Attributes = Attributes(ignore: bool, serializer: Option<SerializerAttribute>)

  /** A property accessor: whether it is public, and whether it overrides a
      base definition (its base definition is not itself). */
  datatype Accessor = Accessor(isPublic: bool, overridesBase: bool)

  datatype PropertyInfo = PropertyInfo(
    name: string,
    propertyType: TypeId,
    indexParameterCount: nat,
    getter: Option<Accessor>,
    setter: Option<Accessor>,
    attributes: Attributes)

  /** The accessors of a property, public and non-public, getter first. */
  function Accessors(p: PropertyInfo): (r: seq<Accessor>)
    ensures |r| <= 2
  {
    (if p.getter.Some? then [p.getter.value] else []) +
    (if p.setter.Some? then [p.setter.value] else [])
  }

  datatype FieldInfo = FieldInfo(
    name: string,
    fieldType: TypeId,
    isPublic: bool,
    isInitOnly: bool,
    isLiteral: bool,
    attributes: Attributes)

  datatype TypeKind = ClassKind | StructKind | InterfaceKind

  /** The shape of a type as reflection reports it: its kind, its base type,
      its zero-argument constructor (given by the slots it initialises), its
      [ContentSerializerTypeVersion] attributes, and its declared properties
      and fields in declaration order. */
  datatype TypeShape = TypeShape(
    name: TypeId,
    kind: TypeKind,
    baseType: Option<TypeId>,
    defaultConstructor: Option<map<MemberRef, Value>>,
    typeVersionAttributes: seq<int>,
    properties: seq<PropertyInfo>,
    fields: seq<FieldInfo>)

  predicate IsValueType(t: TypeShape)
  {
    t.kind == StructKind
  }

  predicate IsClass(t: TypeShape)
  {
    t.kind == ClassKind
  }

  /** `Type.IsAssignableFrom`, over an explicit relation of (target, source)
      pairs besides the identity. */
  predicate IsAssignableFrom(assignable: set<(TypeId, TypeId)>, target: TypeId, source: TypeId)
  {
    source == target || (target, source) in assignable
  }

  // ---------------------------------------------------------------------
  // Type readers as the rest of the loader sees them

  /** What a member helper needs to know of a type reader. */
  datatype TypeReader = TypeReader(targetType: TypeId, canDeserializeIntoExistingObject: bool)

  /** `ContentTypeReaderManager.GetTypeReader` as a lookup table. */
  type Manager = map<TypeId, TypeReader>

  function GetTypeReader(manager: Manager, t: TypeId): (r: Option<TypeReader>)
    ensures r.Some? <==> t in manager
    ensures r.Some? ==> r.value == manager[t]
  {
    if t in manager then Some(manager[t]) else None
  }

  /** The immutable state of a `ReflectiveReaderMemberHelper`: the member it
      reads (a property or a field), whether it may be assigned, whether it is a
      shared resource, and the reader of its type (null when none was found). */
  datatype Helper = Helper(
    member: MemberRef,
    canWrite: bool,
    sharedResource: bool,
    typeReader: Option<TypeReader>)

  /** A registered shared-resource fixup: the resource index read from the
      stream and the closure's captured helper and parent instance. */
  datatype Fixup = Fixup(index: nat, helper: Helper, parent: ObjId)

  // ---------------------------------------------------------------------
  // The stream and the heap

  /** One step of the stream: the result of one nested read (`Inline(v)`: the
      nested reader returned `v`; `Populated`: it returned the instance it was
      given), or the index of a shared resource. */
  datatype Token = Inline(value: Value) | Populated | SharedRef(index: nat)

  /** Everything a read can change: the cursor, the pending fixups, the heap
      objects and the next free object id. */
  datatype State = State(position: nat, fixups: seq<Fixup>, objects: map<ObjId, Obj>, nextId: nat)

  /** A nested `ReadObject` at `position`, given the instance to populate. */
  function ReadObjectSpec(tokens: seq<Token>, position: nat, existing: Value): (r: Result<Value>)
    ensures r.Success? <==> position < |tokens| && !tokens[position].SharedRef?
    ensures r.Failure? ==> r.error == BadStream
  {
    if position < |tokens| then
      match tokens[position]
      case Inline(v) => Success(v)
      case Populated => Success(existing)
      case SharedRef(_) => Failure(BadStream)
    else
      Failure(BadStream)
  }

  /** `ReadSharedResource` at `position`: the shared-resource index. */
  function ReadSharedResourceSpec(tokens: seq<Token>, position: nat): (r: Result<nat>)
    ensures r.Success? <==> position < |tokens| && tokens[position].SharedRef?
    ensures r.Success? ==> r.value == tokens[position].index
    ensures r.Failure? ==> r.error == BadStream
  {
    if position < |tokens| && tokens[position].SharedRef? then Success(tokens[position].index)
    else Failure(BadStream)
  }

  /** The stream side of a `ContentReader`: the tokens, the cursor, and the
      list of shared-resource fixups registered so far. */
  class ContentReader {
    const tokens: seq<Token>
    var position: nat
    var fixups: seq<Fixup>

    constructor (tokens: seq<Token>)
      ensures this.tokens == tokens && position == 0 && fixups == []
    {
      this.tokens := tokens;
      position := 0;
      fixups := [];
    }

    /** Reads one nested object; consumes one token when it succeeds. */
    method ReadObject(existing: Value) returns (r: Result<Value>)
      modifies this
      ensures r == ReadObjectSpec(tokens, old(position), existing)
      ensures position == if r.Success? then old(position) + 1 else old(position)
      ensures fixups == old(fixups)
    {
      r := ReadObjectSpec(tokens, position, existing);
      if r.Success? {
        position := position + 1;
      }
    }

    /** Reads a shared-resource index and registers the fixup of `helper` on
      `parent` under it; consumes one token when it succeeds. */
    method ReadSharedResource(helper: Helper, parent: ObjId) returns (r: Result<()>)
      modifies this
      ensures var index := ReadSharedResourceSpec(tokens, old(position));
        && (r.Success? <==> index.Success?)
        && (r.Failure? ==> r.error == index.error && position == old(position) && fixups == old(fixups))
        && (r.Success? ==> position == old(position) + 1
                           && fixups == old(fixups) + [Fixup(index.value, helper, parent)])
    {
      var index := ReadSharedResourceSpec(tokens, position);
      if index.Failure? {
        return Failure(index.error);
      }
      fixups := fixups + [Fixup(index.value, helper, parent)];
      position := position + 1;
      r := Success(());
    }
  }

  /** The objects of the heap and the next free object id. */
  class Heap {
    var objects: map<ObjId, Obj>
    var nextId: nat

    ghost predicate Valid()
      reads this
    {
      forall id :: id in objects ==> id < nextId
    }

    constructor ()
      ensures Valid() && objects == map[] && nextId == 0
    {
      objects := map[];
      nextId := 0;
    }

    /** Allocates a new object and returns its id, which was not in use. */
    method Allocate(o: Obj) returns (id: ObjId)
      requires Valid()
      modifies this
      ensures Valid()
      ensures id == old(nextId) && id !in old(objects)
      ensures objects == old(objects)[id := o] && nextId == old(nextId) + 1
    {
      id := nextId;
      objects := objects[id := o];
      nextId := nextId + 1;
    }

    /** `SetValue`: assigns one slot of one object. */
    method SetSlot(id: ObjId, m: MemberRef, v: Value)
      requires id in objects
      modifies this
      ensures objects == WithSlot(old(objects), id, m, v) && nextId == old(nextId)
    {
      objects := WithSlot(objects, id, m, v);
    }
  }

  /** The state a read sees through a content reader and a heap. */
  ghost function StateOf(input: ContentReader, heap: Heap): State
    reads input, heap
  {
    State(input.position, input.fixups, heap.objects, heap.nextId)
  }
}
