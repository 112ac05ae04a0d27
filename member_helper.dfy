/** `ReflectiveReaderMemberHelper`: the policy that decides which members of a
    type are read, and the per-member read with its three modes (deferred
    shared-resource fixup, assignment of a freshly read value, population of
    the existing value in place). */
module MemberHelper {
  import opened Content

  /** What `TryCreate` gives for one member: a helper, nothing (null), or an exception. */
  datatype Outcome = Include(helper: Helper) | Skip | Fail(error: LoadError)

  /** Whether a member's [ContentSerializer] attribute asks for a shared resource. */
  function IsSharedResource(attributes: Attributes): (r: bool)
    ensures r ==> attributes.serializer.Some?
    ensures r <==> attributes.serializer == Some(SerializerAttribute(true))
  {
    attributes.serializer.Some? && attributes.serializer.value.sharedResource
  }

  /** Whether the reader of `t` exists and can populate an existing instance. */
  predicate CanPopulate(manager: Manager, t: TypeId)
  {
    t in manager && manager[t].canDeserializeIntoExistingObject
  }

  /** The inclusion policy common to properties and fields. */
  function ShouldSerializeMember(
    manager: Manager, declaringType: TypeShape, attributes: Attributes,
    memberType: TypeId, isPublic: bool, canRead: bool, canWrite: bool): (r: bool)
    // readable, not ignored, and public or explicitly serialized
    ensures r ==> canRead && !attributes.ignore && (isPublic || attributes.serializer.Some?)
    // a member that cannot be assigned must be populated in place
    ensures r && !canWrite ==> CanPopulate(manager, memberType)
    // a value type may not hold shared resources
    ensures r && IsValueType(declaringType) ==> !IsSharedResource(attributes)
    // and those conditions together suffice
    ensures (&& canRead && !attributes.ignore && (isPublic || attributes.serializer.Some?)
             && (canWrite || CanPopulate(manager, memberType))
             && !(IsValueType(declaringType) && IsSharedResource(attributes))) ==> r
  {
    if !canRead then false
    else if attributes.ignore then false
    else if !isPublic && attributes.serializer.None? then false
    else if !canWrite && (GetTypeReader(manager, memberType).None?
                          || !GetTypeReader(manager, memberType).value.canDeserializeIntoExistingObject) then false
    else if IsValueType(declaringType) && IsSharedResource(attributes) then false
    else true
  }

  /** No accessor of `p` overrides a base definition. */
  predicate NoAccessorOverrides(p: PropertyInfo)
  {
    forall i :: 0 <= i < |Accessors(p)| ==> !Accessors(p)[i].overridesBase
  }

  /** Every accessor of `p` is public. */
  predicate AllAccessorsPublic(p: PropertyInfo)
  {
    forall i :: 0 <= i < |Accessors(p)| ==> Accessors(p)[i].isPublic
  }

  /** The inclusion policy for a property: not indexed, no overriding
      accessor, and the member policy with "public" meaning every accessor is
      public, "readable" having a getter and "writable" having a setter. */
  predicate PropertySerializable(manager: Manager, declaringType: TypeShape, p: PropertyInfo)
  {
    && p.indexParameterCount == 0
    && NoAccessorOverrides(p)
    && ShouldSerializeMember(manager, declaringType, p.attributes, p.propertyType,
                             AllAccessorsPublic(p), p.getter.Some?, p.setter.Some?)
  }

  method ShouldSerializeProperty(manager: Manager, declaringType: TypeShape, p: PropertyInfo)
    returns (r: bool)
    ensures r <==> PropertySerializable(manager, declaringType, p)
    ensures p.indexParameterCount > 0 ==> !r
    ensures (exists i :: 0 <= i < |Accessors(p)| && Accessors(p)[i].overridesBase) ==> !r
  {
    if p.indexParameterCount > 0 {
      return false;
    }
    var accessors := Accessors(p);
    var isPublic := true;
    for i := 0 to |accessors|
      invariant forall j :: 0 <= j < i ==> !accessors[j].overridesBase
      invariant isPublic <==> forall j :: 0 <= j < i ==> accessors[j].isPublic
    {
      if accessors[i].overridesBase {
        return false;
      }
      if !accessors[i].isPublic {
        isPublic := false;
      }
    }
    r := ShouldSerializeMember(manager, declaringType, p.attributes, p.propertyType,
                               isPublic, p.getter.Some?, p.setter.Some?);
  }

  /** Throws when a member the policy rejected carries [ContentSerializer]. */
  function ValidateSkippedMember(attributes: Attributes): (r: Result<()>)
    ensures r.Failure? <==> attributes.serializer.Some?
    ensures r.Failure? ==> r.error == CantSerializeMember
  {
    if attributes.serializer.Some? then Failure(CantSerializeMember) else Success(())
  }

  /** The private constructor: looks up the reader of the member's type and
      reads the shared-resource flag off the member's attributes. */
  function NewHelper(manager: Manager, member: MemberRef, memberType: TypeId,
                     attributes: Attributes, canWrite: bool): (h: Helper)
    ensures h.member == member && h.canWrite == canWrite
    ensures h.sharedResource <==> attributes.serializer == Some(SerializerAttribute(true))
    ensures h.typeReader.Some? <==> memberType in manager
    ensures h.typeReader.Some? ==> h.typeReader.value == manager[memberType]
  {
    Helper(member, canWrite, IsSharedResource(attributes), GetTypeReader(manager, memberType))
  }

  /** The tail both `TryCreate` overloads share: a rejected member gives no
      helper unless it carries [ContentSerializer], which makes it an error. */
  function Decide(included: bool, attributes: Attributes, helper: Helper): (o: Outcome)
    ensures o.Include? <==> included
    ensures o.Include? ==> o.helper == helper
    ensures o.Skip? <==> !included && attributes.serializer.None?
    ensures o.Fail? ==> o.error == CantSerializeMember
  {
    if !included then
      match ValidateSkippedMember(attributes)
      case Failure(e) => Fail(e)
      case Success(_) => Skip
    else
      Include(helper)
  }

  /** `TryCreate` for a field: always readable, writable unless init-only or literal. */
  function TryCreateField(manager: Manager, declaringType: TypeShape, f: FieldInfo): (o: Outcome)
    ensures o.Include? <==>
      && !f.attributes.ignore
      && (f.isPublic || f.attributes.serializer.Some?)
      && (f.isInitOnly || f.isLiteral ==> CanPopulate(manager, f.fieldType))
      && !(IsValueType(declaringType) && IsSharedResource(f.attributes))
    ensures o.Include? ==>
              && o.helper.member == Field(f.name)
              && (o.helper.canWrite <==> !f.isInitOnly && !f.isLiteral)
              && o.helper.sharedResource == IsSharedResource(f.attributes)
              && o.helper.typeReader == GetTypeReader(manager, f.fieldType)
    ensures o.Skip? <==> !o.Include? && f.attributes.serializer.None?
    ensures o.Fail? ==> o.error == CantSerializeMember
  {
    var canRead := true;
    var canWrite := !f.isInitOnly && !f.isLiteral;
    Decide(ShouldSerializeMember(manager, declaringType, f.attributes, f.fieldType, f.isPublic, canRead, canWrite),
           f.attributes,
           NewHelper(manager, Field(f.name), f.fieldType, f.attributes, canWrite))
  }

  /** What `TryCreate` gives for a property. */
  function PropertyOutcome(manager: Manager, declaringType: TypeShape, p: PropertyInfo): (o: Outcome)
    ensures o.Include? <==>
      && p.indexParameterCount == 0
      && NoAccessorOverrides(p)
      && p.getter.Some?
      && !p.attributes.ignore
      && (AllAccessorsPublic(p) || p.attributes.serializer.Some?)
      && (p.setter.Some? || CanPopulate(manager, p.propertyType))
      && !(IsValueType(declaringType) && IsSharedResource(p.attributes))
    ensures o.Include? ==>
              && o.helper.member == Property(p.name)
              && o.helper.canWrite == p.setter.Some?
              && o.helper.sharedResource == IsSharedResource(p.attributes)
              && o.helper.typeReader == GetTypeReader(manager, p.propertyType)
    ensures o.Skip? <==> !o.Include? && p.attributes.serializer.None?
    ensures o.Fail? ==> o.error == CantSerializeMember
  {
    Decide(PropertySerializable(manager, declaringType, p),
           p.attributes,
           NewHelper(manager, Property(p.name), p.propertyType, p.attributes, p.setter.Some?))
  }

  /** `TryCreate` for a property. */
  method TryCreateProperty(manager: Manager, declaringType: TypeShape, p: PropertyInfo)
    returns (o: Outcome)
    ensures o == PropertyOutcome(manager, declaringType, p)
  {
    var should := ShouldSerializeProperty(manager, declaringType, p);
    if !should {
      var valid := ValidateSkippedMember(p.attributes);
      if valid.Failure? {
        return Fail(valid.error);
      }
      return Skip;
    }
    o := Include(NewHelper(manager, Property(p.name), p.propertyType, p.attributes, p.setter.Some?));
  }

  /** A member tagged as a shared resource is never skipped silently: it is
      either read or rejected with an error; on a value type it is always
      rejected. */
  lemma SharedResourceIsNeverSkipped(manager: Manager, declaringType: TypeShape, f: FieldInfo, p: PropertyInfo)
    ensures IsSharedResource(f.attributes) ==> !TryCreateField(manager, declaringType, f).Skip?
    ensures IsSharedResource(p.attributes) ==> !PropertyOutcome(manager, declaringType, p).Skip?
    ensures IsValueType(declaringType) && IsSharedResource(f.attributes) ==>
              TryCreateField(manager, declaringType, f) == Fail(CantSerializeMember)
    ensures IsValueType(declaringType) && IsSharedResource(p.attributes) ==>
              PropertyOutcome(manager, declaringType, p) == Fail(CantSerializeMember)
  {
  }

  // ---------------------------------------------------------------------
  // Read

  /** What `Read` does to the state, by mode. */
  function Step(h: Helper, tokens: seq<Token>, s: State, parent: ObjId): (r: Result<State>)
    requires parent in s.objects
    // every mode consumes exactly one token and allocates nothing
    ensures r.Success? ==> r.value.position == s.position + 1 && r.value.nextId == s.nextId
    // and changes at most the member's own slot of the parent
    ensures r.Success? ==> ChangesOnlySlot(s.objects, r.value.objects, parent, h.member)
    // shared resource: fails up front when the member cannot be assigned;
    // otherwise registers exactly one fixup and changes no object
    ensures h.sharedResource && !h.canWrite ==> r == Failure(ReadOnlySharedResource)
    ensures h.sharedResource && h.canWrite ==>
              (r.Success? <==> s.position < |tokens| && tokens[s.position].SharedRef?)
    ensures h.sharedResource && r.Success? ==>
              && r.value.objects == s.objects
              && r.value.fixups == s.fixups + [Fixup(tokens[s.position].index, h, parent)]
    // assignment: one value read with no existing instance, assigned to this member only
    ensures !h.sharedResource && h.canWrite ==>
              (r.Success? <==> ReadObjectSpec(tokens, s.position, Null).Success?)
    ensures !h.sharedResource && h.canWrite && r.Success? ==>
              && r.value.fixups == s.fixups
              && ChangesOnlySlot(s.objects, r.value.objects, parent, h.member)
              && SlotOf(r.value.objects[parent], h.member) == ReadObjectSpec(tokens, s.position, Null).value
    // in place: a null current value is an error; otherwise the existing value
    // is read into and the parent keeps pointing at it
    ensures !h.sharedResource && !h.canWrite && SlotOf(s.objects[parent], h.member).Null? ==>
              r == Failure(ReadOnlyNullMember)
    ensures !h.sharedResource && !h.canWrite && SlotOf(s.objects[parent], h.member).Ref? ==>
              (r.Success? <==> s.position < |tokens| && !tokens[s.position].SharedRef?)
    ensures !h.sharedResource && !h.canWrite && r.Success? ==>
              r.value.objects == s.objects && r.value.fixups == s.fixups
    // the stream is the only other source of failure
    ensures r.Failure? && r.error !in {ReadOnlySharedResource, ReadOnlyNullMember} ==> r.error == BadStream
  {
    if h.sharedResource then
      if !h.canWrite then Failure(ReadOnlySharedResource)
      else
        match ReadSharedResourceSpec(tokens, s.position)
        case Failure(e) => Failure(e)
        case Success(index) =>
          Success(s.(position := s.position + 1, fixups := s.fixups + [Fixup(index, h, parent)]))
    else if h.canWrite then
      match ReadObjectSpec(tokens, s.position, Null)
      case Failure(e) => Failure(e)
      case Success(v) =>
        Success(s.(position := s.position + 1, objects := WithSlot(s.objects, parent, h.member, v)))
    else
      var current := SlotOf(s.objects[parent], h.member);
      if current.Null? then Failure(ReadOnlyNullMember)
      else
        match ReadObjectSpec(tokens, s.position, current)
        case Failure(e) => Failure(e)
        case Success(_) => Success(s.(position := s.position + 1))
  }

  /** Reads one member of `parent`; on failure nothing has changed. */
  method Read(h: Helper, input: ContentReader, heap: Heap, parent: ObjId) returns (r: Result<()>)
    requires parent in heap.objects
    modifies input, heap
    ensures var step := Step(h, input.tokens, old(StateOf(input, heap)), parent);
      && (r.Success? <==> step.Success?)
      && (step.Success? ==> StateOf(input, heap) == step.value)
      && (step.Failure? ==> r.error == step.error && StateOf(input, heap) == old(StateOf(input, heap)))
  {
    if h.sharedResource {
      if !h.canWrite {
        return Failure(ReadOnlySharedResource);
      }
      r := input.ReadSharedResource(h, parent);
    } else if h.canWrite {
      var value := input.ReadObject(Null);
      if value.Failure? {
        return Failure(value.error);
      }
      heap.SetSlot(parent, h.member, value.value);
      r := Success(());
    } else {
      var current := SlotOf(heap.objects[parent], h.member);
      if current.Null? {
        return Failure(ReadOnlyNullMember);
      }
      var populated := input.ReadObject(current);
      if populated.Failure? {
        return Failure(populated.error);
      }
      r := Success(());
    }
  }

  /** What `FixupSharedResource` does to the objects when the shared resource
      `value` is resolved for the member of `h` on `parent`.  The reader's
      target type is looked at before the value's runtime type, so a missing
      reader is reported before a null value. */
  function ResolveFixup(h: Helper, objects: map<ObjId, Obj>, parent: ObjId, value: Value,
                        assignable: set<(TypeId, TypeId)>): (r: Result<map<ObjId, Obj>>)
    requires parent in objects && (value.Ref? ==> value.id in objects)
    ensures r.Success? <==>
              && h.typeReader.Some? && value.Ref?
              && IsAssignableFrom(assignable, h.typeReader.value.targetType, objects[value.id].ty)
    ensures h.typeReader.None? ==> r == Failure(NullTypeReader)
    ensures h.typeReader.Some? && value.Null? ==> r == Failure(NullResolvedResource)
    ensures h.typeReader.Some? && value.Ref? && r.Failure? ==> r.error == SharedResourceTypeMismatch
    ensures r.Success? ==>
              && ChangesOnlySlot(objects, r.value, parent, h.member)
              && SlotOf(r.value[parent], h.member) == value
  {
    match h.typeReader
    case None => Failure(NullTypeReader)
    case Some(reader) =>
      match value
      case Null => Failure(NullResolvedResource)
      case Ref(id) =>
        if !IsAssignableFrom(assignable, reader.targetType, objects[id].ty) then
          Failure(SharedResourceTypeMismatch)
        else
          Success(WithSlot(objects, parent, h.member, value))
  }

  /** Runs one registered fixup with its resolved value; on failure the member is unchanged. */
  method FixupSharedResource(h: Helper, heap: Heap, parent: ObjId, value: Value,
                             assignable: set<(TypeId, TypeId)>) returns (r: Result<()>)
    requires parent in heap.objects && (value.Ref? ==> value.id in heap.objects)
    modifies heap
    ensures var spec := ResolveFixup(h, old(heap.objects), parent, value, assignable);
      && (r.Success? <==> spec.Success?)
      && (spec.Success? ==> heap.objects == spec.value)
      && (spec.Failure? ==> r.error == spec.error && heap.objects == old(heap.objects))
    ensures heap.nextId == old(heap.nextId)
  {
    if h.typeReader.None? {
      return Failure(NullTypeReader);
    }
    if value.Null? {
      return Failure(NullResolvedResource);
    }
    if !IsAssignableFrom(assignable, h.typeReader.value.targetType, heap.objects[value.id].ty) {
      return Failure(SharedResourceTypeMismatch);
    }
    heap.SetSlot(parent, h.member, value);
    r := Success(());
  }

  /** Deferring a shared resource ends where reading it inline would: once the
      fixup registered by `Read` runs with a value of the right type, the
      objects are those an assignable, non-shared read of that value leaves. */
  lemma DeferredFixupMatchesInlineRead(h: Helper, tokens: seq<Token>, s: State, parent: ObjId,
                                       value: ObjId, assignable: set<(TypeId, TypeId)>)
    requires parent in s.objects && value in s.objects
    requires h.sharedResource && Step(h, tokens, s, parent).Success?
    requires h.typeReader.Some? && IsAssignableFrom(assignable, h.typeReader.value.targetType, s.objects[value].ty)
    ensures var s' := Step(h, tokens, s, parent).value;
            var f := s'.fixups[|s.fixups|];
            var inline := Step(h.(sharedResource := false), tokens[s.position := Inline(Ref(value))], s, parent);
            && f.helper == h && f.parent == parent
            && inline.Success?
            && ResolveFixup(f.helper, s'.objects, f.parent, Ref(value), assignable) == Success(inline.value.objects)
  {
  }
}
