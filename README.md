# Reflective content reading in MonoGame, modelled in Dafny

MonoGame's XNB content loader reads types that have no hand-written reader with
`ReflectiveReader<T>`. The first time the type is needed, `Initialize` builds a
plan for it:

- an optional reader for the base type;
- one `ReflectiveReaderMemberHelper` for each declared property the inclusion
  policy accepts;
- then one for each accepted field.

Every `Read` then picks or constructs the instance, lets the base reader fill
it, and runs the member helpers on it in order. Each helper works in one of
three modes:

- it registers a deferred fixup for a shared resource;
- it assigns a freshly read value;
- or it populates the member's current value in place.

The project models the two classes:

- `content.dfy` (module `Content`) holds the vocabulary.
  - Reflection is replaced by plain records: `TypeShape`, `PropertyInfo`,
    `FieldInfo` and their serializer attributes.
  - The heap is a map from object id to an object whose slots map members to
    values.
  - The binary stream is a sequence of tokens read through a cursor. Each
    token is the result of one nested read:
    - `Inline(v)`: the nested reader returned `v`;
    - `Populated`: it returned the instance it was handed;
    - `SharedRef(i)`: a shared-resource index.
  - It also holds two small classes for collaborators outside these files:
    the stream side of `ContentReader` and the object heap.
- `member_helper.dfy` (module `MemberHelper`) models
  `ReflectiveReaderMemberHelper`.
  - It covers the inclusion policy, both `TryCreate` overloads, the
    per-member `Read` and `FixupSharedResource`.
  - `Step` says on values what one `Read` does to the state. The method
    `Read` is proved against it.
- `reflective_reader.dfy` (module `ReflectiveReaders`) models
  `ReflectiveReader<T>`.
  - `BuildPlan` is the helper list `Initialize` builds, or the exception it
    throws.
  - `ReadSpec` is what `Read` does to the state.
  - The class `ReflectiveReader` keeps the source's fields, its loops and
    their invariants, and its methods are proved against those functions.
  - A worked example (`Derived : Base` with a settable `Y` and a read-only
    `Cache`) proves what the whole read gives on concrete data.

An exception is modelled as a `Failure` carrying a `LoadError` that names its
cause. `TryCreate`'s outcome is `Include(helper) | Skip | Fail(error)`.

## Model

| member | source | states |
|---|---|---|
| MemberHelper.IsSharedResource | MonoGame.Framework/Content/ReflectiveReaderMemberHelper.cs:89-93 | a member is a shared resource exactly when it carries [ContentSerializer] with SharedResource set |
| MemberHelper.ShouldSerializeMember | MonoGame.Framework/Content/ReflectiveReaderMemberHelper.cs:153-180 | a member is accepted only if it is readable, not ignore-tagged, and public or serializer-tagged. A member that cannot be written also needs a reader of its type that can deserialize into an existing object. A value type never accepts a shared resource. These conditions together are also sufficient |
| MemberHelper.ShouldSerializeProperty | MonoGame.Framework/Content/ReflectiveReaderMemberHelper.cs:182-201 | the loop over the accessors accepts a property exactly when it has no index parameters, no accessor overrides a base definition, and the member policy holds. For that policy "public" means every accessor is public, "readable" means it has a getter and "writable" means it has a setter. An indexed or overriding property is always rejected |
| MemberHelper.ValidateSkippedMember | MonoGame.Framework/Content/ReflectiveReaderMemberHelper.cs:225-231 | a rejected member throws CantSerializeMember exactly when it carries [ContentSerializer] |
| MemberHelper.NewHelper | MonoGame.Framework/Content/ReflectiveReaderMemberHelper.cs:57-71 | the helper records the member and its writability. Its shared flag comes from the member's own attribute. Its type reader is the manager's reader for the member type, and is none when the manager has none |
| MemberHelper.Decide | MonoGame.Framework/Content/ReflectiveReaderMemberHelper.cs:207-212 | an accepted member gives its helper. A rejected one gives nothing (null) when it is untagged, and CantSerializeMember otherwise |
| MemberHelper.TryCreateField | MonoGame.Framework/Content/ReflectiveReaderMemberHelper.cs:203-213 | a field is included exactly when it is not ignored, is public or tagged, has a populating reader if it is init-only or literal, and is not a shared resource on a value type. The helper names the field and is writable exactly when the field is neither init-only nor literal. The field is skipped exactly when it is rejected and untagged, and every other outcome is CantSerializeMember |
| MemberHelper.PropertyOutcome | MonoGame.Framework/Content/ReflectiveReaderMemberHelper.cs:215-223 | a property is included exactly when it is not indexed, has no overriding accessor, has a getter, is not ignored, all its accessors are public or it is tagged, it has a setter or a populating reader, and it is not a shared resource on a value type. The helper is writable exactly when a setter exists. The property is skipped exactly when it is rejected and untagged, and every other outcome is CantSerializeMember |
| MemberHelper.TryCreateProperty | MonoGame.Framework/Content/ReflectiveReaderMemberHelper.cs:215-223 | the method, using the accessor loop, gives exactly the outcome `PropertyOutcome` describes |
| MemberHelper.SharedResourceIsNeverSkipped | MonoGame.Framework/Content/ReflectiveReaderMemberHelper.cs:203-223 | a shared-resource member is never silently skipped: it is read or it is an error. On a value type it is always CantSerializeMember |
| MemberHelper.Step | MonoGame.Framework/Content/ReflectiveReaderMemberHelper.cs:95-151 | one member read consumes exactly one token. The member helper's own writes touch at most the member's own slot of the parent, and nested reads are modelled as allocating and writing nothing. Shared mode: a read-only member fails with ReadOnlySharedResource. Otherwise one fixup (index, helper, parent) is appended and the helper writes no slot. Assign mode: the slot gets the value read with no existing instance. In-place mode: a null current value fails with ReadOnlyNullMember. Otherwise the helper writes no slot. Any other failure is the stream's |
| MemberHelper.Read | MonoGame.Framework/Content/ReflectiveReaderMemberHelper.cs:95-151 | the new reader and heap state is the one `Step` gives. On failure the error is `Step`'s and nothing has changed |
| MemberHelper.ResolveFixup | MonoGame.Framework/Content/ReflectiveReaderMemberHelper.cs:73-87 | a non-null resolved value whose type is assignable to the reader's target type is assigned to the member and nothing else changes. A member without a reader fails with NullTypeReader, checked first. A null value fails with NullResolvedResource. A value of another type fails with SharedResourceTypeMismatch |
| MemberHelper.FixupSharedResource | MonoGame.Framework/Content/ReflectiveReaderMemberHelper.cs:73-87 | the heap after the call is the one `ResolveFixup` gives. On failure the heap is unchanged |
| MemberHelper.DeferredFixupMatchesInlineRead | MonoGame.Framework/Content/ReflectiveReaderMemberHelper.cs:98-124 | a registered fixup captures the helper and the parent. Running it with a value of the right type leaves the objects exactly as an inline assignment of that value would |
| Content.WithSlot | MonoGame.Framework/Content/ReflectiveReaderMemberHelper.cs:116-123 | setting a member changes that slot of that object to the value and nothing else |
| Content.GetTypeReader | MonoGame.Framework/Content/ReflectiveReaderMemberHelper.cs:59 | the lookup gives the manager's reader for the type, or none when there is none |
| Content.ReadObjectSpec | MonoGame.Framework/Content/ReflectiveReaderMemberHelper.cs:115 | a nested read succeeds exactly when an object token is at the cursor. It gives the token's value, or the instance handed in for a populated token. Otherwise it fails as a stream error |
| Content.ReadSharedResourceSpec | MonoGame.Framework/Content/ReflectiveReaderMemberHelper.cs:111 | reading a shared resource succeeds exactly when a shared-resource token is at the cursor, and gives its index |
| Content.ContentReader.ReadObject | MonoGame.Framework/Content/ReflectiveReaderMemberHelper.cs:115 | the result is `ReadObjectSpec` at the cursor. The cursor advances by one exactly on success, and the fixups are unchanged |
| Content.ContentReader.ReadSharedResource | MonoGame.Framework/Content/ReflectiveReaderMemberHelper.cs:111 | on success the cursor advances by one and exactly one fixup is appended. On failure nothing changes |
| Content.Heap.Allocate | MonoGame.Framework/Content/ContentReaders/ReflectiveReader.cs:118-122 | a new object gets an id that was not in use. The heap gains exactly that object |
| Content.Heap.SetSlot | MonoGame.Framework/Content/ReflectiveReaderMemberHelper.cs:116-123 | the objects become `WithSlot` of the old objects |
| ReflectiveReaders.DeclaredTypeVersion | MonoGame.Framework/Content/ContentReaders/ReflectiveReader.cs:67-71 | the version is the attribute's value when there is exactly one [ContentSerializerTypeVersion], and 0 otherwise |
| ReflectiveReaders.BaseReaderFor | MonoGame.Framework/Content/ContentReaders/ReflectiveReader.cs:76-80 | the base reader is the manager's reader for the base type, or none when there is none |
| ReflectiveReaders.PropertyOutcomes | MonoGame.Framework/Content/ContentReaders/ReflectiveReader.cs:84-91 | one `TryCreate` outcome per declared property, in declaration order |
| ReflectiveReaders.FieldOutcomes | MonoGame.Framework/Content/ContentReaders/ReflectiveReader.cs:92-99 | one `TryCreate` outcome per declared field, in declaration order |
| ReflectiveReaders.Included | MonoGame.Framework/Content/ContentReaders/ReflectiveReader.cs:84-99 | the helpers kept are no more than the outcomes, and each one is an included outcome |
| ReflectiveReaders.IncludedAppend | MonoGame.Framework/Content/ContentReaders/ReflectiveReader.cs:84-99 | skipped members contribute nothing and relative order is preserved: the helpers of `a + b` are those of `a` followed by those of `b` |
| ReflectiveReaders.Added | MonoGame.Framework/Content/ContentReaders/ReflectiveReader.cs:84-99 | when no member throws, the helpers added are exactly the included ones |
| ReflectiveReaders.AddedFirstFailure | MonoGame.Framework/Content/ContentReaders/ReflectiveReader.cs:84-99 | when member i throws, the reader keeps the helpers of the included members before i, and no others |
| ReflectiveReaders.AddedAppend | MonoGame.Framework/Content/ContentReaders/ReflectiveReader.cs:84-99 | for properties then fields, the property loop's helpers are added first. The field loop's follow only when no property throws |
| ReflectiveReaders.Collect | MonoGame.Framework/Content/ContentReaders/ReflectiveReader.cs:82-99 | the list is built exactly when no member fails, and it is then the included helpers in order |
| ReflectiveReaders.CollectFirstFailure | MonoGame.Framework/Content/ContentReaders/ReflectiveReader.cs:84-91 | the exception thrown is the one of the first member that fails |
| ReflectiveReaders.CollectAppend | MonoGame.Framework/Content/ContentReaders/ReflectiveReader.cs:82-99 | collecting properties then fields is collecting the properties, stopping at their first exception, and then the fields |
| ReflectiveReaders.PlanOrder | MonoGame.Framework/Content/ContentReaders/ReflectiveReader.cs:82-99 | the plan exists exactly when no property and no field fails. It is then the included properties in declaration order followed by the included fields in declaration order |
| ReflectiveReaders.PlanHelpersAreIncludedMembers | MonoGame.Framework/Content/ContentReaders/ReflectiveReader.cs:82-99 | every helper in the plan is the helper `TryCreate` gave for a declared property or field |
| ReflectiveReaders.Instantiate | MonoGame.Framework/Content/ContentReaders/ReflectiveReader.cs:108-123 | an existing instance is used as is, with no construction. Otherwise a new object of the target type is allocated under the next free id, with the constructor's slots, or all null for a value type without one. A reference type without a zero-argument constructor fails with NoDefaultConstructor |
| ReflectiveReaders.BaseRead | MonoGame.Framework/Content/ContentReaders/ReflectiveReader.cs:124-127 | without a base reader nothing happens. With one, exactly one token is consumed and it must give back the same instance. Another instance fails with ReaderConstructedNewInstance |
| ReflectiveReaders.Run | MonoGame.Framework/Content/ContentReaders/ReflectiveReader.cs:128-131 | running the helpers consumes one token per helper. Their own writes add no object and keep the parent's type; nested reads are modelled as allocating nothing |
| ReflectiveReaders.RunKeepsOtherObjects | MonoGame.Framework/Content/ContentReaders/ReflectiveReader.cs:128-131 | the helpers' own writes change no object but the parent; nested reads are modelled as writing nothing |
| ReflectiveReaders.RunAppend | MonoGame.Framework/Content/ContentReaders/ReflectiveReader.cs:128-131 | helpers run one after the other: running `a + b` is running `a`, then `b` on what `a` left, and a failure in `a` stops the run |
| ReflectiveReaders.RunSnoc | MonoGame.Framework/Content/ContentReaders/ReflectiveReader.cs:128-131 | after a successful run of the first helpers, running one more is one more `Step` |
| ReflectiveReaders.RunStopsAtFailure | MonoGame.Framework/Content/ContentReaders/ReflectiveReader.cs:128-131 | once a prefix of the helpers fails, the whole run fails with that error |
| ReflectiveReaders.RunExtendsFixups | MonoGame.Framework/Content/ContentReaders/ReflectiveReader.cs:128-131 | the fixups already pending stay, as a prefix, and every new one is registered on the parent |
| ReflectiveReaders.RunRegistersFixupsInOrder | MonoGame.Framework/Content/ContentReaders/ReflectiveReader.cs:128-131 | each shared-resource helper registers exactly one fixup, in helper order |
| ReflectiveReaders.RunKeepsUnreadSlot | MonoGame.Framework/Content/ContentReaders/ReflectiveReader.cs:128-131 | a slot that no helper reads keeps its value |
| ReflectiveReaders.RunAssignsMember | MonoGame.Framework/Content/ContentReaders/ReflectiveReader.cs:128-131 | helper k reads token k. A writable, non-shared member that no later helper reads ends up holding that token's value |
| ReflectiveReaders.ReadSpec | MonoGame.Framework/Content/ContentReaders/ReflectiveReader.cs:102-133 | the result is an instance that exists in the final heap |
| ReflectiveReaders.ReadSpecInstance | MonoGame.Framework/Content/ContentReaders/ReflectiveReader.cs:108-132 | a supplied instance is the instance returned, and the reader itself allocates nothing. Otherwise the new object is returned, under the next free id and of the target type. A reference type without a constructor fails. A read consumes one token for the base reader and one per helper. Nested reads, the base reader's included, are modelled as allocating and writing nothing, so the read touches no object but the instance |
| ReflectiveReaders.ReadBaseFirst | MonoGame.Framework/Content/ContentReaders/ReflectiveReader.cs:124-127 | the base reader reads first: it takes the first token, and that token gives back the instance |
| ReflectiveReaders.ReadFailsOnNewBaseInstance | MonoGame.Framework/Content/ContentReaders/ReflectiveReader.cs:124-127 | a base reader returning another instance makes `Read` fail with ReaderConstructedNewInstance |
| ReflectiveReaders.ReadAssignsMember | MonoGame.Framework/Content/ContentReaders/ReflectiveReader.cs:124-132 | after the base reader's token, helper k reads the k-th following token, and an assigned member holds its value in the returned instance |
| ReflectiveReaders.ReadRegistersFixupsInOrder | MonoGame.Framework/Content/ContentReaders/ReflectiveReader.cs:128-132 | a read keeps the pending fixups and adds one per shared-resource helper, in helper order, each on the returned instance |
| ReflectiveReaders.DerivedY | MonoGame.Framework/Content/ReflectiveReaderMemberHelper.cs:215-223 | in the example, the public settable property `Y` is included as an assigned member |
| ReflectiveReaders.DerivedCache | MonoGame.Framework/Content/ReflectiveReaderMemberHelper.cs:215-223 | in the example, the getter-only `Cache`, whose reader can populate, is included as an in-place member |
| ReflectiveReaders.DerivedPlan | MonoGame.Framework/Content/ContentReaders/ReflectiveReader.cs:74-100 | in the example, the plan is the base reader, then `Y`, then `Cache` |
| ReflectiveReaders.DerivedMembers | MonoGame.Framework/Content/ReflectiveReaderMemberHelper.cs:113-150 | in the example, `Y` takes the next token's value and `Cache` keeps its object after being populated |
| ReflectiveReaders.DerivedRead | MonoGame.Framework/Content/ContentReaders/ReflectiveReader.cs:102-133 | reading a new `Derived` returns a fresh instance after three tokens. `Y` is set and the constructor's cache object is kept |
| ReflectiveReaders.ReflectiveReader.constructor | MonoGame.Framework/Content/ContentReaders/ReflectiveReader.cs:62-72 | a new reader has no base reader and no member helpers. Its constructor and type version come from the target type |
| ReflectiveReaders.ReflectiveReader.CanDeserializeIntoExistingObject | MonoGame.Framework/Content/ContentReaders/ReflectiveReader.cs:135-141 | true exactly when the target type is a class |
| ReflectiveReaders.ReflectiveReader.TypeVersion | MonoGame.Framework/Content/ContentReaders/ReflectiveReader.cs:143-149 | the version of the single [ContentSerializerTypeVersion] attribute, and 0 unless there is exactly one |
| ReflectiveReaders.ReflectiveReader.AddPropertyHelpers | MonoGame.Framework/Content/ContentReaders/ReflectiveReader.cs:84-91 | the property loop appends exactly the collected property helpers, or throws the first property's exception. In both cases the list keeps what was appended before the exception: the helpers of the included properties before the first failing one |
| ReflectiveReaders.ReflectiveReader.AddFieldHelpers | MonoGame.Framework/Content/ContentReaders/ReflectiveReader.cs:92-99 | the field loop appends exactly the collected field helpers, or throws the first field's exception. In both cases the list keeps what was appended before the exception: the helpers of the included fields before the first failing one |
| ReflectiveReaders.ReflectiveReader.Initialize | MonoGame.Framework/Content/ContentReaders/ReflectiveReader.cs:74-100 | a base reader is looked up exactly when the base type exists and is neither System.Object nor System.ValueType, and it stays set even when a member throws. The helper list gains exactly `BuildPlan`, or the plan's exception is thrown. After an exception the list keeps the helpers of the included members before the first failing one, properties first |
| ReflectiveReaders.ReflectiveReader.ReadMembers | MonoGame.Framework/Content/ContentReaders/ReflectiveReader.cs:128-131 | the helper loop leaves exactly the state `Run` gives, or fails with `Run`'s error |
| ReflectiveReaders.ReflectiveReader.Read | MonoGame.Framework/Content/ContentReaders/ReflectiveReader.cs:102-133 | a null input fails with ArgumentNull and touches no heap object. A reference type without a constructor and no existing instance fails with NoDefaultConstructor and changes nothing. Otherwise the result and the new state are exactly `ReadSpec`'s |

## Left out

- Reflection itself is not modelled: `GetProperties`, `GetFields`, attribute lookup, `GetBaseDefinition`, `GetConstructor`, `Activator.CreateInstance`, `GetValue` and `SetValue`. A type is described by a `TypeShape` record. A property accessor records whether it is public and whether it overrides a base definition. The zero-argument constructor is given by the slots it initialises.
- `ContentReader` is not part of this model beyond a stand-in: a nested `ReadObject` is one opaque token. What a nested reader does inside the object it populates is not modelled, and neither is stream decoding.
- The second pass that runs the registered fixups lives in `ContentReader` and is not part of this model. A single fixup call is modelled by `FixupSharedResource`, given the resolved value.
- `ContentTypeReaderManager.GetTypeReader` is a lookup table. Its caching and its handling of cycles are not modelled.
- Exception classes and messages are not modelled, only the cause of each error (`LoadError`). A stream that has no suitable token at the cursor stands for every failure inside `ContentReader` (`BadStream`).
- The read-only check on a shared-resource member happens when `Read` runs, as the code does it, and not when `TryCreate` builds the helper. `TryCreate` accepts such a member when its reader can populate in place.
- MemberHelper.FixupSharedResource: a member whose type has no reader, or a null resolved value, makes the source dereference null and throw a NullReferenceException. The model reports these as the errors `NullTypeReader` and `NullResolvedResource`.
- ReflectiveReaders.ReflectiveReader.Read: the source calls the base reader's `Read` directly, while members go through `ContentReader.ReadObject`. The model treats both as the same opaque one-token nested read; this is a modelling choice.
- Nested reads are modelled as allocating nothing and writing no object. In the source, a nested read builds new values, and a nested reflective reader allocates instances. An in-place read changes the member's current object, and the base reader writes the instance's base-class slots. The claims that a read allocates nothing, keeps the set of objects, or touches only the parent or the instance cover the member helper's and the reader's own writes only.
- MemberHelper.Step: a nested read does not depend on the member's type reader. A writable member without a reader is read like any other; how `ContentReader.ReadObject` treats a null reader is not part of this model.
- Content.Heap.Allocate: the id of a new object is the next free number. Object identity is id equality.
