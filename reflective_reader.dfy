/** `ReflectiveReader<T>`: the per-type reader that builds its plan once (an
    optional base reader, then one helper per included property followed by
    one per included field) and runs it on every read. */
module ReflectiveReaders {
  import opened Content
  import opened MemberHelper

  // ---------------------------------------------------------------------
  // Construction and Initialize

  /** The type version: the value of the [ContentSerializerTypeVersion]
      attribute when the type carries exactly one, and 0 otherwise. */
  function DeclaredTypeVersion(t: TypeShape): (v: int)
    ensures |t.typeVersionAttributes| == 1 ==> v == t.typeVersionAttributes[0]
    ensures v != 0 ==> |t.typeVersionAttributes| == 1
  {
    if |t.typeVersionAttributes| == 1 then t.typeVersionAttributes[0] else 0
  }

  /** Whether `t` has a base type whose reader is looked up: one that exists
      and is neither System.Object nor System.ValueType. */
  predicate HasReadableBase(t: TypeShape)
  {
    t.baseType.Some? && t.baseType.value != ObjectTypeName && t.baseType.value != ValueTypeName
  }

  /** The base reader `Initialize` sets, when it sets one. */
  function BaseReaderFor(manager: Manager, t: TypeShape): (r: Option<TypeReader>)
    requires HasReadableBase(t)
    ensures r.Some? <==> t.baseType.value in manager
    ensures r.Some? ==> r.value == manager[t.baseType.value]
  {
    GetTypeReader(manager, t.baseType.value)
  }

  /** What `TryCreate` gives for each declared property, in declaration order. */
  function PropertyOutcomes(manager: Manager, t: TypeShape): (os: seq<Outcome>)
    ensures |os| == |t.properties|
    ensures forall i :: 0 <= i < |os| ==> os[i] == PropertyOutcome(manager, t, t.properties[i])
  {
    seq(|t.properties|, i requires 0 <= i < |t.properties| => PropertyOutcome(manager, t, t.properties[i]))
  }

  /** What `TryCreate` gives for each declared field, in declaration order. */
  function FieldOutcomes(manager: Manager, t: TypeShape): (os: seq<Outcome>)
    ensures |os| == |t.fields|
    ensures forall i :: 0 <= i < |os| ==> os[i] == TryCreateField(manager, t, t.fields[i])
  {
    seq(|t.fields|, i requires 0 <= i < |t.fields| => TryCreateField(manager, t, t.fields[i]))
  }

  /** The helpers of the included members, in order; skipped members contribute nothing. */
  function Included(os: seq<Outcome>): (hs: seq<Helper>)
    ensures |hs| <= |os|
    ensures forall h :: h in hs ==> Include(h) in os
  {
    if os == [] then []
    else (if os[0].Include? then [os[0].helper] else []) + Included(os[1..])
  }

  lemma {:induction false} IncludedAppend(a: seq<Outcome>, b: seq<Outcome>)
    ensures Included(a + b) == Included(a) + Included(b)
  {
    if a == [] {
      assert a + b == b;
    } else {
      assert (a + b)[0] == a[0];
      assert (a + b)[1..] == a[1..] + b;
      IncludedAppend(a[1..], b);
    }
  }

  /** One more outcome adds its helper, if it has one, at the end of what
      was collected so far (after `pre`). */
  lemma IncludedSnoc(pre: seq<Helper>, os: seq<Outcome>, i: nat)
    requires i < |os|
    ensures pre + Included(os[..i + 1]) ==
              if os[i].Include? then pre + Included(os[..i]) + [os[i].helper] else pre + Included(os[..i])
  {
    assert os[..i + 1] == os[..i] + [os[i]];
    IncludedAppend(os[..i], [os[i]]);
    assert [os[i]][1..] == [];
  }

  predicate NoFailure(os: seq<Outcome>)
  {
    forall i :: 0 <= i < |os| ==> !os[i].Fail?
  }

  lemma AppendAssoc<T>(a: seq<T>, b: seq<T>, c: seq<T>)
    ensures (a + b) + c == a + (b + c)
  {
  }

  lemma NoFailureSnoc(os: seq<Outcome>, i: nat)
    requires i < |os| && NoFailure(os[..i]) && !os[i].Fail?
    ensures NoFailure(os[..i + 1])
  {
    assert os[..i + 1] == os[..i] + [os[i]];
  }

  /** The helper list of a run of `TryCreate` calls that stops at the first exception. */
  function Collect(os: seq<Outcome>): (r: Result<seq<Helper>>)
    ensures r.Success? <==> NoFailure(os)
    ensures r.Success? ==> r.value == Included(os)
  {
    if os == [] then Success([])
    else
      match os[0]
      case Fail(e) => Failure(e)
      case Skip => Collect(os[1..])
      case Include(h) =>
        match Collect(os[1..])
        case Failure(e) => Failure(e)
        case Success(rest) => Success([h] + rest)
  }

  /** The exception that stops the run is the first one. */
  lemma {:induction false} CollectFirstFailure(os: seq<Outcome>, i: nat)
    requires i < |os| && os[i].Fail? && NoFailure(os[..i])
    ensures Collect(os) == Failure(os[i].error)
  {
    if i > 0 {
      assert !os[0].Fail? by { assert os[..i][0] == os[0]; }
      assert os[1..][..i - 1] == os[..i][1..];
      CollectFirstFailure(os[1..], i - 1);
    }
  }

  /** Collecting `a + b` is collecting `a`, then `b`: the first exception of
      `a` wins, and otherwise the helpers of `b` follow those of `a`. */
  lemma {:induction false} CollectAppend(a: seq<Outcome>, b: seq<Outcome>)
    ensures Collect(a + b) ==
              match Collect(a)
              case Failure(e) => Failure(e)
              case Success(x) =>
                match Collect(b)
                case Failure(e) => Failure(e)
                case Success(y) => Success(x + y)
  {
    if a == [] {
      assert a + b == b;
      if Collect(b).Success? {
        assert [] + Collect(b).value == Collect(b).value;
      }
    } else {
      assert (a + b)[0] == a[0];
      assert (a + b)[1..] == a[1..] + b;
      CollectAppend(a[1..], b);
      if a[0].Include? && Collect(a[1..]).Success? && Collect(b).Success? {
        assert [a[0].helper] + (Collect(a[1..]).value + Collect(b).value)
            == ([a[0].helper] + Collect(a[1..]).value) + Collect(b).value;
      }
    }
  }

  /** The helpers a run of `TryCreate` calls has added to the reader when it
      stops: those of the included members before the first exception, which
      stay in the list when the exception propagates. */
  function Added(os: seq<Outcome>): (hs: seq<Helper>)
    ensures NoFailure(os) ==> hs == Included(os)
  {
    if os == [] || os[0].Fail? then []
    else (if os[0].Include? then [os[0].helper] else []) + Added(os[1..])
  }

  /** When member `i` throws, the helpers of the included members before it
      have been added, and no others. */
  lemma {:induction false} AddedFirstFailure(os: seq<Outcome>, i: nat)
    requires i < |os| && os[i].Fail? && NoFailure(os[..i])
    ensures Added(os) == Included(os[..i])
  {
    if i > 0 {
      assert !os[0].Fail? by { assert os[..i][0] == os[0]; }
      assert os[1..][..i - 1] == os[..i][1..];
      AddedFirstFailure(os[1..], i - 1);
    } else {
      assert os[..i] == [];
    }
  }

  /** Adding for `a + b` adds for `a`, and for `b` only when nothing in `a` throws. */
  lemma {:induction false} AddedAppend(a: seq<Outcome>, b: seq<Outcome>)
    ensures Added(a + b) == if NoFailure(a) then Added(a) + Added(b) else Added(a)
  {
    if a == [] {
      assert a + b == b;
    } else {
      assert (a + b)[0] == a[0];
      assert (a + b)[1..] == a[1..] + b;
      if !a[0].Fail? {
        AddedAppend(a[1..], b);
        assert NoFailure(a) <==> NoFailure(a[1..]) by {
          if NoFailure(a[1..]) {
            forall i | 0 <= i < |a| ensures !a[i].Fail? {
              if i > 0 { assert a[i] == a[1..][i - 1]; }
            }
          }
        }
        if NoFailure(a) {
          var x := if a[0].Include? then [a[0].helper] else [];
          AppendAssoc(x, Added(a[1..]), Added(b));
        }
      }
    }
  }

  /** The helper list `Initialize` builds, or the exception it throws. */
  function BuildPlan(manager: Manager, t: TypeShape): Result<seq<Helper>>
  {
    Collect(PropertyOutcomes(manager, t) + FieldOutcomes(manager, t))
  }

  /** The plan is the included properties in declaration order followed by the
      included fields in declaration order; it fails exactly when some member
      is rejected with an error. */
  lemma PlanOrder(manager: Manager, t: TypeShape)
    ensures var plan := BuildPlan(manager, t);
      && (plan.Success? <==> NoFailure(PropertyOutcomes(manager, t)) && NoFailure(FieldOutcomes(manager, t)))
      && (plan.Success? ==>
            plan.value == Included(PropertyOutcomes(manager, t)) + Included(FieldOutcomes(manager, t)))
  {
    CollectAppend(PropertyOutcomes(manager, t), FieldOutcomes(manager, t));
  }

  /** Every helper of the plan is what `TryCreate` gave for a declared
      property or a declared field. */
  lemma PlanHelpersAreIncludedMembers(manager: Manager, t: TypeShape)
    requires BuildPlan(manager, t).Success?
    ensures forall h :: h in BuildPlan(manager, t).value ==>
              Include(h) in PropertyOutcomes(manager, t) || Include(h) in FieldOutcomes(manager, t)
  {
    var ps, fs := PropertyOutcomes(manager, t), FieldOutcomes(manager, t);
    forall h | h in BuildPlan(manager, t).value
      ensures Include(h) in ps || Include(h) in fs
    {
      assert Include(h) in ps + fs;
    }
  }

  // ---------------------------------------------------------------------
  // Read

  /** The part of a reader's state that `Read` uses. */
  datatype ReaderPlan = ReaderPlan(target: TypeShape, baseReader: Option<TypeReader>, helpers: seq<Helper>)

  /** The slots of a freshly constructed instance: those the zero-argument
      constructor sets, or all null for a default-initialised value type. */
  function InitialSlots(t: TypeShape): map<MemberRef, Value>
  {
    match t.defaultConstructor
    case Some(slots) => slots
    case None => map[]
  }

  /** Picks the instance to read into: the existing one, or a new one. */
  function Instantiate(target: TypeShape, s: State, existing: Value): (r: Result<(Value, State)>)
    requires existing.Ref? ==> existing.id in s.objects
    ensures existing.Ref? ==> r == Success((existing, s))
    ensures existing.Null? ==> (r.Failure? <==> target.defaultConstructor.None? && !IsValueType(target))
    ensures r.Failure? ==> r.error == NoDefaultConstructor
    ensures existing.Null? && r.Success? ==>
              && r.value.0 == Ref(s.nextId)
              && r.value.1 == s.(objects := s.objects[s.nextId := Obj(target.name, InitialSlots(target))],
                                 nextId := s.nextId + 1)
  {
    if existing.Ref? then Success((existing, s))
    else if target.defaultConstructor.None? && !IsValueType(target) then Failure(NoDefaultConstructor)
    else
      var id := s.nextId;
      Success((Ref(id), s.(objects := s.objects[id := Obj(target.name, InitialSlots(target))], nextId := id + 1)))
  }

  /** The base reader's read of `instance`, which must give the instance back. */
  function BaseRead(baseReader: Option<TypeReader>, tokens: seq<Token>, s: State, instance: Value): (r: Result<State>)
    ensures baseReader.None? ==> r == Success(s)
    ensures baseReader.Some? && r.Success? ==>
              && r.value == s.(position := s.position + 1)
              && s.position < |tokens|
              && (tokens[s.position] == Inline(instance) || tokens[s.position] == Populated)
    ensures baseReader.Some? && s.position < |tokens| && tokens[s.position].Inline? && tokens[s.position].value != instance ==>
              r == Failure(ReaderConstructedNewInstance)
  {
    match baseReader
    case None => Success(s)
    case Some(_) =>
      match ReadObjectSpec(tokens, s.position, instance)
      case Failure(e) => Failure(e)
      case Success(returned) =>
        if returned != instance then Failure(ReaderConstructedNewInstance)
        else Success(s.(position := s.position + 1))
  }

  /** The helpers run one after the other on `parent`; the first failure stops the run. */
  function Run(hs: seq<Helper>, tokens: seq<Token>, s: State, parent: ObjId): (r: Result<State>)
    requires parent in s.objects
    ensures r.Success? ==>
              && r.value.position == s.position + |hs|
              && r.value.nextId == s.nextId
              && r.value.objects.Keys == s.objects.Keys
              && r.value.objects[parent].ty == s.objects[parent].ty
    decreases |hs|
  {
    if hs == [] then Success(s)
    else
      match Step(hs[0], tokens, s, parent)
      case Failure(e) => Failure(e)
      case Success(s1) => Run(hs[1..], tokens, s1, parent)
  }

  /** A run changes no object but `parent`. */
  lemma {:induction false} RunKeepsOtherObjects(hs: seq<Helper>, tokens: seq<Token>, s: State, parent: ObjId)
    requires parent in s.objects && Run(hs, tokens, s, parent).Success?
    ensures forall o :: o in s.objects && o != parent ==> Run(hs, tokens, s, parent).value.objects[o] == s.objects[o]
  {
    if hs != [] {
      var s1 := Step(hs[0], tokens, s, parent).value;
      RunKeepsOtherObjects(hs[1..], tokens, s1, parent);
    }
  }

  /** Running `a + b` is running `a`, then `b` on what `a` left. */
  lemma {:induction false} RunAppend(a: seq<Helper>, b: seq<Helper>, tokens: seq<Token>, s: State, parent: ObjId)
    requires parent in s.objects
    ensures Run(a + b, tokens, s, parent) ==
              match Run(a, tokens, s, parent)
              case Failure(e) => Failure(e)
              case Success(s1) => Run(b, tokens, s1, parent)
  {
    if a == [] {
      assert a + b == b;
    } else {
      assert (a + b)[0] == a[0];
      assert (a + b)[1..] == a[1..] + b;
      match Step(a[0], tokens, s, parent)
      case Failure(_) =>
      case Success(s1) => RunAppend(a[1..], b, tokens, s1, parent);
    }
  }

  /** Running one more helper after a successful run is one more `Step`. */
  lemma RunSnoc(hs: seq<Helper>, i: nat, tokens: seq<Token>, s: State, parent: ObjId)
    requires parent in s.objects && i < |hs| && Run(hs[..i], tokens, s, parent).Success?
    ensures Run(hs[..i + 1], tokens, s, parent) == Step(hs[i], tokens, Run(hs[..i], tokens, s, parent).value, parent)
  {
    assert hs[..i + 1] == hs[..i] + [hs[i]];
    RunAppend(hs[..i], [hs[i]], tokens, s, parent);
    var s1 := Run(hs[..i], tokens, s, parent).value;
    assert [hs[i]][1..] == [];
    match Step(hs[i], tokens, s1, parent)
    case Failure(_) =>
    case Success(s2) => assert Run([hs[i]], tokens, s1, parent) == Run([], tokens, s2, parent);
  }

  /** A run whose first `i` helpers fail fails with the same error. */
  lemma RunStopsAtFailure(hs: seq<Helper>, i: nat, tokens: seq<Token>, s: State, parent: ObjId)
    requires parent in s.objects && i <= |hs| && Run(hs[..i], tokens, s, parent).Failure?
    ensures Run(hs, tokens, s, parent) == Run(hs[..i], tokens, s, parent)
  {
    assert hs == hs[..i] + hs[i..];
    RunAppend(hs[..i], hs[i..], tokens, s, parent);
  }

  /** The helpers of `hs` that are shared resources, in order. */
  function SharedHelpers(hs: seq<Helper>): (r: seq<Helper>)
    ensures |r| <= |hs|
  {
    if hs == [] then []
    else (if hs[0].sharedResource then [hs[0]] else []) + SharedHelpers(hs[1..])
  }

  function FixupHelpers(fs: seq<Fixup>): (r: seq<Helper>)
    ensures |r| == |fs| && forall i :: 0 <= i < |fs| ==> r[i] == fs[i].helper
  {
    seq(|fs|, i requires 0 <= i < |fs| => fs[i].helper)
  }

  lemma FixupHelpersSnoc(fs: seq<Fixup>, f: Fixup)
    ensures FixupHelpers(fs + [f]) == FixupHelpers(fs) + [f.helper]
  {
  }

  /** A run keeps the fixups already pending, as a prefix, and registers new
      ones only on `parent`. */
  lemma {:induction false} RunExtendsFixups(hs: seq<Helper>, tokens: seq<Token>, s: State, parent: ObjId)
    requires parent in s.objects && Run(hs, tokens, s, parent).Success?
    ensures var r := Run(hs, tokens, s, parent).value;
      && |s.fixups| <= |r.fixups|
      && r.fixups[..|s.fixups|] == s.fixups
      && forall i :: |s.fixups| <= i < |r.fixups| ==> r.fixups[i].parent == parent
  {
    if hs != [] {
      var s1 := Step(hs[0], tokens, s, parent).value;
      var r := Run(hs[1..], tokens, s1, parent).value;
      RunExtendsFixups(hs[1..], tokens, s1, parent);
      var n, n1 := |s.fixups|, |s1.fixups|;
      assert r.fixups[..n] == r.fixups[..n1][..n];
      if hs[0].sharedResource {
        assert s1.fixups[n].parent == parent;
        assert r.fixups[n] == r.fixups[..n1][n];
      }
    }
  }

  /** A run registers exactly one fixup per shared-resource helper, in helper
      order, after the fixups already pending. */
  lemma {:induction false} RunRegistersFixupsInOrder(hs: seq<Helper>, tokens: seq<Token>, s: State, parent: ObjId)
    requires parent in s.objects && Run(hs, tokens, s, parent).Success?
    ensures FixupHelpers(Run(hs, tokens, s, parent).value.fixups) == FixupHelpers(s.fixups) + SharedHelpers(hs)
  {
    if hs != [] {
      var s1 := Step(hs[0], tokens, s, parent).value;
      RunRegistersFixupsInOrder(hs[1..], tokens, s1, parent);
      if hs[0].sharedResource {
        FixupHelpersSnoc(s.fixups, s1.fixups[|s.fixups|]);
        assert s1.fixups == s.fixups + [s1.fixups[|s.fixups|]];
        assert SharedHelpers(hs) == [hs[0]] + SharedHelpers(hs[1..]);
      }
    }
  }

  /** A slot that no helper of the run reads is left as it was. */
  lemma {:induction false} RunKeepsUnreadSlot(hs: seq<Helper>, tokens: seq<Token>, s: State, parent: ObjId, m: MemberRef)
    requires parent in s.objects && Run(hs, tokens, s, parent).Success?
    requires forall i :: 0 <= i < |hs| ==> hs[i].member != m
    ensures SlotOf(Run(hs, tokens, s, parent).value.objects[parent], m) == SlotOf(s.objects[parent], m)
  {
    if hs != [] {
      var s1 := Step(hs[0], tokens, s, parent).value;
      assert SlotOf(s1.objects[parent], m) == SlotOf(s.objects[parent], m);
      RunKeepsUnreadSlot(hs[1..], tokens, s1, parent, m);
    }
  }

  /** The "no later helper reads the member" condition, on the tail. */
  lemma NotReadAfter(hs: seq<Helper>, k: nat)
    requires k < |hs| && forall j :: k < j < |hs| ==> hs[j].member != hs[k].member
    ensures forall j :: k <= j < |hs[1..]| ==> hs[1..][j].member != hs[k].member
  {
    forall j | k <= j < |hs[1..]| ensures hs[1..][j].member != hs[k].member {
      assert hs[1..][j] == hs[j + 1];
    }
  }

  /** The k-th helper reads the k-th token of the run: an assignable,
      non-shared member that no later helper reads ends up holding the value
      of that token. */
  lemma {:induction false} RunAssignsMember(hs: seq<Helper>, tokens: seq<Token>, s: State, parent: ObjId, k: nat)
    requires parent in s.objects && Run(hs, tokens, s, parent).Success?
    requires k < |hs| && !hs[k].sharedResource && hs[k].canWrite
    requires forall j :: k < j < |hs| ==> hs[j].member != hs[k].member
    ensures ReadObjectSpec(tokens, s.position + k, Null).Success?
    ensures SlotOf(Run(hs, tokens, s, parent).value.objects[parent], hs[k].member)
            == ReadObjectSpec(tokens, s.position + k, Null).value
  {
    var s1 := Step(hs[0], tokens, s, parent).value;
    assert Run(hs, tokens, s, parent) == Run(hs[1..], tokens, s1, parent);
    var m := hs[k].member;
    NotReadAfter(hs, k);
    if k == 0 {
      RunKeepsUnreadSlot(hs[1..], tokens, s1, parent, m);
    } else {
      assert hs[1..][k - 1] == hs[k];
      RunAssignsMember(hs[1..], tokens, s1, parent, k - 1);
    }
  }

  /** `Read` on values: choose or construct the instance, let the base reader
      read it, then run every helper on it, and return it. */
  function ReadSpec(plan: ReaderPlan, tokens: seq<Token>, s: State, existing: Value): (r: Result<(Value, State)>)
    requires existing.Ref? ==> existing.id in s.objects
    ensures r.Success? ==> r.value.0.Ref? && r.value.0.id in r.value.1.objects
  {
    match Instantiate(plan.target, s, existing)
    case Failure(e) => Failure(e)
    case Success((instance, s1)) =>
      match BaseRead(plan.baseReader, tokens, s1, instance)
      case Failure(e) => Failure(e)
      case Success(s2) =>
        match Run(plan.helpers, tokens, s2, instance.id)
        case Failure(e) => Failure(e)
        case Success(s3) => Success((instance, s3))
  }

  /** The instance read into is the existing one when given and a new one
      otherwise; a reference type without a constructor is an error; the read
      consumes one token for the base reader and one per helper, and touches
      no object but the instance. */
  lemma ReadSpecInstance(plan: ReaderPlan, tokens: seq<Token>, s: State, existing: Value)
    requires existing.Ref? ==> existing.id in s.objects
    ensures var r := ReadSpec(plan, tokens, s, existing);
      && (r.Success? && existing.Ref? ==>
            r.value.0 == existing && r.value.1.nextId == s.nextId && r.value.1.objects.Keys == s.objects.Keys)
      && (r.Success? && existing.Null? ==>
            && r.value.0 == Ref(s.nextId)
            && r.value.1.nextId == s.nextId + 1
            && r.value.1.objects.Keys == s.objects.Keys + {s.nextId}
            && r.value.1.objects[s.nextId].ty == plan.target.name)
      && (existing.Null? && plan.target.defaultConstructor.None? && !IsValueType(plan.target) ==>
            r == Failure(NoDefaultConstructor))
      && (r.Success? ==> r.value.1.position == s.position + BaseTokens(plan) + |plan.helpers|)
      && (r.Success? ==> forall o :: o in s.objects && Ref(o) != r.value.0 ==> r.value.1.objects[o] == s.objects[o])
  {
    if ReadSpec(plan, tokens, s, existing).Success? {
      var (instance, s1) := Instantiate(plan.target, s, existing).value;
      var s2 := BaseRead(plan.baseReader, tokens, s1, instance).value;
      RunKeepsOtherObjects(plan.helpers, tokens, s2, instance.id);
    }
  }

  /** Number of tokens the base reader consumes. */
  function BaseTokens(plan: ReaderPlan): nat
  {
    if plan.baseReader.Some? then 1 else 0
  }

  /** The base reader reads first: it takes the first token, which must give
      back the instance it was handed. */
  lemma ReadBaseFirst(plan: ReaderPlan, tokens: seq<Token>, s: State, existing: Value)
    requires existing.Ref? ==> existing.id in s.objects
    requires plan.baseReader.Some? && ReadSpec(plan, tokens, s, existing).Success?
    ensures var instance := ReadSpec(plan, tokens, s, existing).value.0;
            tokens[s.position] == Inline(instance) || tokens[s.position] == Populated
  {
  }

  /** A base reader that returns another instance makes the read fail. */
  lemma ReadFailsOnNewBaseInstance(plan: ReaderPlan, tokens: seq<Token>, s: State, existing: Value, other: Value)
    requires existing.Ref? ==> existing.id in s.objects
    requires plan.baseReader.Some? && s.position < |tokens| && tokens[s.position] == Inline(other)
    requires Instantiate(plan.target, s, existing).Success? && other != Instantiate(plan.target, s, existing).value.0
    ensures ReadSpec(plan, tokens, s, existing) == Failure(ReaderConstructedNewInstance)
  {
  }

  /** After the base reader's token, helper k reads token k: an assignable,
      non-shared member that no later helper reads holds that token's value. */
  lemma ReadAssignsMember(plan: ReaderPlan, tokens: seq<Token>, s: State, existing: Value, k: nat)
    requires existing.Ref? ==> existing.id in s.objects
    requires ReadSpec(plan, tokens, s, existing).Success?
    requires k < |plan.helpers| && !plan.helpers[k].sharedResource && plan.helpers[k].canWrite
    requires forall j :: k < j < |plan.helpers| ==> plan.helpers[j].member != plan.helpers[k].member
    ensures var (instance, s') := ReadSpec(plan, tokens, s, existing).value;
            var position := s.position + BaseTokens(plan) + k;
            && ReadObjectSpec(tokens, position, Null).Success?
            && SlotOf(s'.objects[instance.id], plan.helpers[k].member) == ReadObjectSpec(tokens, position, Null).value
  {
    var (instance, s1) := Instantiate(plan.target, s, existing).value;
    var s2 := BaseRead(plan.baseReader, tokens, s1, instance).value;
    RunAssignsMember(plan.helpers, tokens, s2, instance.id, k);
  }

  /** A read registers one fixup per shared-resource helper, in helper order,
      all on the returned instance. */
  lemma ReadRegistersFixupsInOrder(plan: ReaderPlan, tokens: seq<Token>, s: State, existing: Value)
    requires existing.Ref? ==> existing.id in s.objects
    requires ReadSpec(plan, tokens, s, existing).Success?
    ensures var (instance, s') := ReadSpec(plan, tokens, s, existing).value;
      && |s.fixups| <= |s'.fixups|
      && s'.fixups[..|s.fixups|] == s.fixups
      && FixupHelpers(s'.fixups) == FixupHelpers(s.fixups) + SharedHelpers(plan.helpers)
      && forall i :: |s.fixups| <= i < |s'.fixups| ==> Ref(s'.fixups[i].parent) == instance
  {
    var (instance, s1) := Instantiate(plan.target, s, existing).value;
    var s2 := BaseRead(plan.baseReader, tokens, s1, instance).value;
    RunExtendsFixups(plan.helpers, tokens, s2, instance.id);
    RunRegistersFixupsInOrder(plan.helpers, tokens, s2, instance.id);
  }

  // ---------------------------------------------------------------------
  // A worked case: `Derived : Base` with a settable `Y` and a read-only
  // `Cache` that its constructor sets and that is populated in place.
  // A constructor is given by the slots it sets and cannot allocate, so the
  // cache is the existing object 0, shared by every constructed `Derived`.

  const BaseReader := TypeReader("Base", true)
  const CacheReader := TypeReader("System.Object[]", true)
  const StringReader := TypeReader("System.String", false)
  const ExampleManager: Manager := map["Base" := BaseReader, "System.Object[]" := CacheReader, "System.String" := StringReader]
  const PublicAccessor := Accessor(true, false)
  const NoAttributes := Attributes(false, None)

  const Derived := TypeShape(
    "Derived", ClassKind, Some("Base"),
    Some(map[Property("Cache") := Ref(0)]), [],
    [PropertyInfo("Y", "System.String", 0, Some(PublicAccessor), Some(PublicAccessor), NoAttributes),
     PropertyInfo("Cache", "System.Object[]", 0, Some(PublicAccessor), None, NoAttributes)],
    [])

  /** `Y` has a public getter and setter: it is assigned. */
  lemma DerivedY()
    ensures PropertyOutcome(ExampleManager, Derived, Derived.properties[0])
            == Include(Helper(Property("Y"), true, false, Some(StringReader)))
  {
    var p := Derived.properties[0];
    assert Accessors(p) == [PublicAccessor, PublicAccessor];
    assert NoAccessorOverrides(p) && AllAccessorsPublic(p);
    assert "System.String" in ExampleManager;
  }

  /** `Cache` has only a public getter and a reader that can populate: it is read in place. */
  lemma DerivedCache()
    ensures PropertyOutcome(ExampleManager, Derived, Derived.properties[1])
            == Include(Helper(Property("Cache"), false, false, Some(CacheReader)))
  {
    var p := Derived.properties[1];
    assert Accessors(p) == [PublicAccessor];
    assert NoAccessorOverrides(p) && AllAccessorsPublic(p);
    assert "System.Object[]" in ExampleManager && ExampleManager["System.Object[]"] == CacheReader;
    assert CanPopulate(ExampleManager, p.propertyType);
  }

  /** The plan of `Derived`: the base reader, then `Y` (assigned), then `Cache` (populated in place). */
  lemma DerivedPlan()
    ensures BuildPlan(ExampleManager, Derived) == Success([
      Helper(Property("Y"), true, false, Some(StringReader)),
      Helper(Property("Cache"), false, false, Some(CacheReader))])
    ensures HasReadableBase(Derived) && BaseReaderFor(ExampleManager, Derived) == Some(BaseReader)
  {
    var ps, fs := PropertyOutcomes(ExampleManager, Derived), FieldOutcomes(ExampleManager, Derived);
    DerivedY();
    DerivedCache();
    var hY, hC := ps[0].helper, ps[1].helper;
    assert ps == [ps[0], ps[1]];
    assert ps[1..] == [ps[1]] && [ps[1]][1..] == [];
    assert Included([ps[1]]) == [hC];
    assert Included(ps) == [hY] + [hC] == [hY, hC];
    assert NoFailure(ps);
    assert fs == [] && Included(fs) == [] && NoFailure(fs);
    PlanOrder(ExampleManager, Derived);
    assert BuildPlan(ExampleManager, Derived).value == [hY, hC] + [];
    assert "Base" in ExampleManager;
    assert "Base" != ObjectTypeName && "Base" != ValueTypeName by {
      assert |"Base"| != |ObjectTypeName| && |"Base"| != |ValueTypeName|;
    }
  }

  /** The helpers of `Derived` on instance 1, after the base reader's token:
      `Y` takes the next token's value, `Cache` is populated and keeps its object. */
  lemma DerivedMembers(s: State)
    requires s.position == 1 && 1 in s.objects && s.objects[1].slots == map[Property("Cache") := Ref(0)]
    ensures var r := Run([Helper(Property("Y"), true, false, Some(StringReader)),
                          Helper(Property("Cache"), false, false, Some(CacheReader))],
                         [Populated, Inline(Ref(5)), Populated], s, 1);
            && r.Success?
            && r.value.position == 3
            && SlotOf(r.value.objects[1], Property("Y")) == Ref(5)
            && SlotOf(r.value.objects[1], Property("Cache")) == Ref(0)
  {
    var hY := Helper(Property("Y"), true, false, Some(StringReader));
    var hC := Helper(Property("Cache"), false, false, Some(CacheReader));
    var tokens := [Populated, Inline(Ref(5)), Populated];
    var s3 := s.(position := 2, objects := WithSlot(s.objects, 1, Property("Y"), Ref(5)));
    assert ReadObjectSpec(tokens, 1, Null) == Success(Ref(5));
    assert Step(hY, tokens, s, 1) == Success(s3);
    assert Property("Cache") != Property("Y");
    assert SlotOf(s3.objects[1], Property("Cache")) == Ref(0);
    var s4 := s3.(position := 3);
    assert ReadObjectSpec(tokens, 2, Ref(0)) == Success(Ref(0));
    assert Step(hC, tokens, s3, 1) == Success(s4);
    assert [hY, hC][1..] == [hC] && [hC][1..] == [];
    assert Run([hC], tokens, s3, 1) == Success(s4);
  }

  /** Reading a new `Derived` from the tokens "base populated, Y, Cache populated":
      the new instance keeps the cache its constructor made and gets `Y`. */
  lemma DerivedRead()
    ensures var plan := ReaderPlan(Derived, Some(BaseReader), BuildPlan(ExampleManager, Derived).value);
            var s := State(0, [], map[0 := Obj("System.Object[]", map[])], 1);
            var r := ReadSpec(plan, [Populated, Inline(Ref(5)), Populated], s, Null);
            && r.Success?
            && r.value.0 == Ref(1)
            && r.value.1.position == 3
            && SlotOf(r.value.1.objects[1], Property("Y")) == Ref(5)
            && SlotOf(r.value.1.objects[1], Property("Cache")) == Ref(0)
  {
    DerivedPlan();
    var tokens := [Populated, Inline(Ref(5)), Populated];
    var s := State(0, [], map[0 := Obj("System.Object[]", map[])], 1);
    var s1 := s.(objects := s.objects[1 := Obj("Derived", map[Property("Cache") := Ref(0)])], nextId := 2);
    assert Instantiate(Derived, s, Null) == Success((Ref(1), s1));
    var s2 := s1.(position := 1);
    assert BaseRead(Some(BaseReader), tokens, s1, Ref(1)) == Success(s2);
    DerivedMembers(s2);
  }

  // ---------------------------------------------------------------------
  // The reader

  class ReflectiveReader {
    const targetType: TypeShape
    const instanceConstructor: Option<map<MemberRef, Value>> := targetType.defaultConstructor
    const typeVersion: int := DeclaredTypeVersion(targetType)
    var baseReader: Option<TypeReader>
    var memberHelpers: seq<Helper>

    constructor (t: TypeShape)
      ensures targetType == t && baseReader.None? && memberHelpers == []
    {
      targetType := t;
      baseReader := None;
      memberHelpers := [];
    }

    function Plan(): ReaderPlan
      reads this
    {
      ReaderPlan(targetType, baseReader, memberHelpers)
    }

    /** Only instances of a class may be read into. */
    function CanDeserializeIntoExistingObject(): (r: bool)
      ensures r <==> targetType.kind == ClassKind
    {
      IsClass(targetType)
    }

    function TypeVersion(): (v: int)
      ensures |targetType.typeVersionAttributes| == 1 ==> v == targetType.typeVersionAttributes[0]
      ensures |targetType.typeVersionAttributes| != 1 ==> v == 0
    {
      typeVersion
    }

    /** The first loop of `Initialize`: a helper for every included property,
      in declaration order, up to the first exception. */
    method AddPropertyHelpers(manager: Manager) returns (r: Result<()>)
      modifies this`memberHelpers
      ensures var c := Collect(PropertyOutcomes(manager, targetType));
        && (r.Success? <==> c.Success?)
        && (c.Success? ==> memberHelpers == old(memberHelpers) + c.value)
        && (c.Failure? ==> r.error == c.error)
      ensures memberHelpers == old(memberHelpers) + Added(PropertyOutcomes(manager, targetType))
    {
      var properties := targetType.properties;
      ghost var os := PropertyOutcomes(manager, targetType);
      ghost var start := memberHelpers;
      for i := 0 to |properties|
        invariant memberHelpers == start + Included(os[..i])
        invariant NoFailure(os[..i])
      {
        var item := TryCreateProperty(manager, targetType, properties[i]);
        assert item == os[i];
        if item.Fail? {
          CollectFirstFailure(os, i);
          AddedFirstFailure(os, i);
          return Failure(item.error);
        }
        IncludedSnoc(start, os, i);
        NoFailureSnoc(os, i);
        if item.Include? {
          memberHelpers := memberHelpers + [item.helper];
        }
      }
      assert os[..|properties|] == os;
      r := Success(());
    }

    /** The second loop of `Initialize`: a helper for every included field,
      in declaration order, up to the first exception. */
    method AddFieldHelpers(manager: Manager) returns (r: Result<()>)
      modifies this`memberHelpers
      ensures var c := Collect(FieldOutcomes(manager, targetType));
        && (r.Success? <==> c.Success?)
        && (c.Success? ==> memberHelpers == old(memberHelpers) + c.value)
        && (c.Failure? ==> r.error == c.error)
      ensures memberHelpers == old(memberHelpers) + Added(FieldOutcomes(manager, targetType))
    {
      var fields := targetType.fields;
      ghost var os := FieldOutcomes(manager, targetType);
      ghost var start := memberHelpers;
      for j := 0 to |fields|
        invariant memberHelpers == start + Included(os[..j])
        invariant NoFailure(os[..j])
      {
        var helper := TryCreateField(manager, targetType, fields[j]);
        assert helper == os[j];
        if helper.Fail? {
          CollectFirstFailure(os, j);
          AddedFirstFailure(os, j);
          return Failure(helper.error);
        }
        IncludedSnoc(start, os, j);
        NoFailureSnoc(os, j);
        if helper.Include? {
          memberHelpers := memberHelpers + [helper.helper];
        }
      }
      assert os[..|fields|] == os;
      r := Success(());
    }

    /** Looks up the base reader and appends a helper for every included
      property, then for every included field. */
    method Initialize(manager: Manager) returns (r: Result<()>)
      modifies this
      ensures HasReadableBase(targetType) ==> baseReader == BaseReaderFor(manager, targetType)
      ensures !HasReadableBase(targetType) ==> baseReader == old(baseReader)
      ensures var plan := BuildPlan(manager, targetType);
        && (r.Success? <==> plan.Success?)
        && (plan.Success? ==> memberHelpers == old(memberHelpers) + plan.value)
        && (plan.Failure? ==> r.error == plan.error)
      ensures memberHelpers == old(memberHelpers) + Added(PropertyOutcomes(manager, targetType) + FieldOutcomes(manager, targetType))
    {
      var baseType := targetType.baseType;
      if baseType.Some? && baseType.value != ObjectTypeName && baseType.value != ValueTypeName {
        baseReader := GetTypeReader(manager, baseType.value);
      }
      ghost var ps, fs := Collect(PropertyOutcomes(manager, targetType)), Collect(FieldOutcomes(manager, targetType));
      CollectAppend(PropertyOutcomes(manager, targetType), FieldOutcomes(manager, targetType));
      ghost var start := memberHelpers;
      AddedAppend(PropertyOutcomes(manager, targetType), FieldOutcomes(manager, targetType));
      r := AddPropertyHelpers(manager);
      if r.Success? {
        r := AddFieldHelpers(manager);
        AppendAssoc(start, Added(PropertyOutcomes(manager, targetType)), Added(FieldOutcomes(manager, targetType)));
        if r.Success? {
          AppendAssoc(start, ps.value, fs.value);
        }
      }
    }

    /** The loop of `Read` over the member helpers: each one reads its member
      of `instance` in turn; the first exception stops the loop. */
    method ReadMembers(input: ContentReader, heap: Heap, instance: ObjId) returns (r: Result<()>)
      requires heap.Valid() && instance in heap.objects
      modifies input, heap
      ensures heap.Valid()
      ensures var run := Run(memberHelpers, input.tokens, old(StateOf(input, heap)), instance);
        && (r.Success? <==> run.Success?)
        && (run.Success? ==> StateOf(input, heap) == run.value)
        && (run.Failure? ==> r.error == run.error)
    {
      ghost var s := StateOf(input, heap);
      var helpers := memberHelpers;
      for i := 0 to |helpers|
        invariant heap.Valid() && instance in heap.objects
        invariant Run(helpers[..i], input.tokens, s, instance) == Success(StateOf(input, heap))
      {
        var read := MemberHelper.Read(helpers[i], input, heap, instance);
        RunSnoc(helpers, i, input.tokens, s, instance);
        if read.Failure? {
          RunStopsAtFailure(helpers, i + 1, input.tokens, s, instance);
          return Failure(read.error);
        }
      }
      assert helpers[..|helpers|] == helpers;
      r := Success(());
    }

    /** Reads an instance of the target type: the existing one when given,
      a new one otherwise; the base reader first, then every helper in order. */
    method Read(input: ContentReader?, heap: Heap, existing: Value) returns (r: Result<Value>)
      requires heap.Valid()
      requires existing.Ref? ==> existing.id in heap.objects
      modifies input, heap
      ensures heap.Valid()
      ensures input == null ==> r == Failure(ArgumentNull) && unchanged(heap)
      ensures input != null && existing.Null? && instanceConstructor.None? && !IsValueType(targetType) ==>
                r == Failure(NoDefaultConstructor) && unchanged(input, heap)
      ensures input != null ==>
        var spec := ReadSpec(Plan(), input.tokens, old(StateOf(input, heap)), existing);
        && (r.Success? <==> spec.Success?)
        && (spec.Success? ==> r.value == spec.value.0 && StateOf(input, heap) == spec.value.1)
        && (spec.Failure? ==> r.error == spec.error)
    {
      if input == null {
        return Failure(ArgumentNull);
      }
      ghost var s0 := StateOf(input, heap);
      var newInstance := existing;
      if newInstance.Null? {
        if instanceConstructor.None? {
          if !IsValueType(targetType) {
            return Failure(NoDefaultConstructor);
          }
          var id := heap.Allocate(Obj(targetType.name, map[]));
          newInstance := Ref(id);
        } else {
          var id := heap.Allocate(Obj(targetType.name, instanceConstructor.value));
          newInstance := Ref(id);
        }
      }
      ghost var s1 := StateOf(input, heap);
      assert Instantiate(targetType, s0, existing) == Success((newInstance, s1));
      if baseReader.Some? {
        var returned := input.ReadObject(newInstance);
        if returned.Failure? {
          return Failure(returned.error);
        }
        if returned.value != newInstance {
          return Failure(ReaderConstructedNewInstance);
        }
      }
      ghost var s2 := StateOf(input, heap);
      assert BaseRead(baseReader, input.tokens, s1, newInstance) == Success(s2);
      var read := ReadMembers(input, heap, newInstance.id);
      if read.Failure? {
        return Failure(read.error);
      }
      r := Success(newInstance);
    }
  }
}
