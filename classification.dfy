/** Turning a type's declared members into an `InjectedClass`: which fields are
    injected, which constructor is used, and which structural errors are
    reported on the way (`getInjectedClass`, `findNoArgsConstructor`,
    `allTypesExist` of `InjectProcessor`). */
module Classification {
  import opened Host
  import opened Seqs

  /** The injectable view of one type: `@Inject` static fields, the
      constructor to call (if any) and `@Inject` instance fields. */
  datatype InjectedClass = InjectedClass(
    typeRecord: TypeRecord,
    staticFields: seq<Element>,
    ctor: Option<Element>,
    fields: seq<Element>)

  predicate IsInjectStaticField(m: Element) { m.inject && m.kind == Field && m.isStatic }
  predicate IsInjectInstanceField(m: Element) { m.inject && m.kind == Field && !m.isStatic }
  predicate IsInjectConstructor(m: Element) { m.inject && m.kind == Constructor }
  predicate IsUnsupportedInject(m: Element) { m.inject && m.kind != Field && m.kind != Constructor }
  predicate IsNoArgsConstructor(m: Element) { m.kind == Constructor && m.parameters == [] }

  predicate IsCannotInjectError(d: Diagnostic) { d.message.CannotInject? }
  predicate IsTooManyError(d: Diagnostic) { d.message.TooManyConstructors? }
  predicate IsAbstractError(d: Diagnostic) { d.message.AbstractConstructor? }
  predicate IsClassificationError(d: Diagnostic) {
    IsCannotInjectError(d) || IsTooManyError(d) || IsAbstractError(d)
  }

  function Last<T>(s: seq<T>): Option<T> {
    if s == [] then None else Some(s[|s| - 1])
  }

  // ---------------------------------------------------------------------------
  // The member loop of `getInjectedClass`, as a left fold over the members.

  /** The loop's variables after some of the members have been visited. */
  datatype ScanState = ScanState(
    staticFields: seq<Element>,
    ctor: Option<Element>,
    fields: seq<Element>,
    errors: seq<Diagnostic>)

  /** The error an `@Inject` constructor `m` causes, given the constructor seen
      before it: a second one is "too many"; otherwise one on an abstract type is
      refused. The two are exclusive. */
  function ConstructorErrors(t: TypeRecord, previous: Option<Element>, m: Element): seq<Diagnostic> {
    if previous.Some? then [Diagnostic(TooManyConstructors(t.name), AtMember(m))]
    else if t.isAbstract then [Diagnostic(AbstractConstructor(t.name), AtMember(m))]
    else []
  }

  /** One iteration of the member loop. */
  function Step(t: TypeRecord, st: ScanState, m: Element): ScanState {
    if !m.inject then st
    else match m.kind
      case Field =>
        if m.isStatic then st.(staticFields := st.staticFields + [m])
        else st.(fields := st.fields + [m])
      case Constructor =>
        // the later constructor replaces the earlier one, error or not
        st.(ctor := Some(m), errors := st.errors + ConstructorErrors(t, st.ctor, m))
      case _ =>
        st.(errors := st.errors + [Diagnostic(CannotInject(m), AtMember(m))])
  }

  /** The loop's variables after visiting `ms` in order. */
  function Scan(t: TypeRecord, ms: seq<Element>): ScanState
    decreases |ms|
  {
    if ms == [] then ScanState([], None, [], [])
    else Step(t, Scan(t, ms[..|ms| - 1]), ms[|ms| - 1])
  }

  /** The "Cannot inject" errors for the members `us`, one each, in order. */
  function CannotInjectErrors(us: seq<Element>): seq<Diagnostic> {
    seq(|us|, i requires 0 <= i < |us| => Diagnostic(CannotInject(us[i]), AtMember(us[i])))
  }

  lemma CannotInjectErrorsSnoc(us: seq<Element>, m: Element)
    ensures CannotInjectErrors(us + [m]) == CannotInjectErrors(us) + [Diagnostic(CannotInject(m), AtMember(m))]
  {
  }

  lemma StepSelects(t: TypeRecord, st: ScanState, m: Element)
    ensures Step(t, st, m).staticFields == st.staticFields + (if IsInjectStaticField(m) then [m] else [])
    ensures Step(t, st, m).fields == st.fields + (if IsInjectInstanceField(m) then [m] else [])
    ensures Step(t, st, m).ctor == if IsInjectConstructor(m) then Some(m) else st.ctor
  {
  }

  /** The errors one iteration appends. */
  function MemberErrors(t: TypeRecord, previous: Option<Element>, m: Element): seq<Diagnostic> {
    if IsInjectConstructor(m) then ConstructorErrors(t, previous, m)
    else if IsUnsupportedInject(m) then [Diagnostic(CannotInject(m), AtMember(m))]
    else []
  }

  lemma StepErrors(t: TypeRecord, st: ScanState, m: Element)
    ensures Step(t, st, m).errors == st.errors + MemberErrors(t, st.ctor, m)
  {
  }

  /** Members without `@Inject` are ignored; annotated static and instance
      fields are collected in declaration order; the constructor is the last
      `@Inject` constructor. */
  lemma {:induction false} ScanSelects(t: TypeRecord, ms: seq<Element>)
    ensures Scan(t, ms).staticFields == Filter(ms, IsInjectStaticField)
    ensures Scan(t, ms).fields == Filter(ms, IsInjectInstanceField)
    ensures Scan(t, ms).ctor == Last(Filter(ms, IsInjectConstructor))
    decreases |ms|
  {
    if ms != [] {
      var init, m := ms[..|ms| - 1], ms[|ms| - 1];
      ScanSelects(t, init);
      StepSelects(t, Scan(t, init), m);
      assert ms == init + [m];
      FilterAppend(init, [m], IsInjectStaticField);
      FilterAppend(init, [m], IsInjectInstanceField);
      FilterAppend(init, [m], IsInjectConstructor);
      FilterSingleton(m, IsInjectStaticField);
      FilterSingleton(m, IsInjectInstanceField);
      FilterSingleton(m, IsInjectConstructor);
    }
  }

  /** One "Cannot inject" error per annotated member that is neither a field
      nor a constructor, in declaration order. */
  lemma {:induction false} ScanCannotInjectErrors(t: TypeRecord, ms: seq<Element>)
    ensures Filter(Scan(t, ms).errors, IsCannotInjectError) == CannotInjectErrors(Filter(ms, IsUnsupportedInject))
    decreases |ms|
  {
    if ms != [] {
      var init, m := ms[..|ms| - 1], ms[|ms| - 1];
      ScanCannotInjectErrors(t, init);
      var before := Scan(t, init);
      var e := MemberErrors(t, before.ctor, m);
      var us := Filter(init, IsUnsupportedInject);
      StepErrors(t, before, m);
      assert ms == init + [m];
      FilterAppend(before.errors, e, IsCannotInjectError);
      FilterAppend(init, [m], IsUnsupportedInject);
      FilterSingleton(m, IsUnsupportedInject);
      if IsUnsupportedInject(m) {
        var err := Diagnostic(CannotInject(m), AtMember(m));
        assert e == [err];
        FilterSingleton(err, IsCannotInjectError);
        CannotInjectErrorsSnoc(us, m);
        assert Filter(ms, IsUnsupportedInject) == us + [m];
      } else {
        assert Filter(ms, IsUnsupportedInject) == us;
        if e != [] {
          assert e == [e[0]] && !IsCannotInjectError(e[0]);
          FilterSingleton(e[0], IsCannotInjectError);
        }
        assert Filter(e, IsCannotInjectError) == [];
      }
    }
  }

  /** A constructor has been seen exactly when an annotated one was declared. */
  lemma ScanHasCtor(t: TypeRecord, ms: seq<Element>)
    ensures Scan(t, ms).ctor.Some? <==> Filter(ms, IsInjectConstructor) != []
  {
    ScanSelects(t, ms);
  }

  /** The "too many" errors for the annotated constructors `cs`: one at each
      constructor after the first, each naming the type. */
  function TooManyErrors(t: TypeRecord, cs: seq<Element>): seq<Diagnostic> {
    if cs == [] then []
    else seq(|cs| - 1, k requires 0 <= k < |cs| - 1 => Diagnostic(TooManyConstructors(t.name), AtMember(cs[k + 1])))
  }

  /** The abstract-class error for the annotated constructors `cs`: one at the
      first of them when the type is abstract. */
  function AbstractErrors(t: TypeRecord, cs: seq<Element>): seq<Diagnostic> {
    if t.isAbstract && cs != [] then [Diagnostic(AbstractConstructor(t.name), AtMember(cs[0]))] else []
  }

  lemma TooManyErrorsSnoc(t: TypeRecord, cs: seq<Element>, m: Element)
    ensures TooManyErrors(t, cs + [m]) ==
      TooManyErrors(t, cs) + (if cs == [] then [] else [Diagnostic(TooManyConstructors(t.name), AtMember(m))])
  {
    if cs != [] {
      var cs' := cs + [m];
      assert TooManyErrors(t, cs')[|cs| - 1] == Diagnostic(TooManyConstructors(t.name), AtMember(m));
    }
  }

  lemma AbstractErrorsSnoc(t: TypeRecord, cs: seq<Element>, m: Element)
    ensures AbstractErrors(t, cs + [m]) ==
      AbstractErrors(t, cs) + (if t.isAbstract && cs == [] then [Diagnostic(AbstractConstructor(t.name), AtMember(m))] else [])
  {
    assert (cs + [m])[0] == if cs == [] then m else cs[0];
  }

  /** One iteration's errors of each constructor kind. */
  lemma MemberErrorKinds(t: TypeRecord, previous: Option<Element>, m: Element)
    ensures Filter(MemberErrors(t, previous, m), IsTooManyError) ==
      (if IsInjectConstructor(m) && previous.Some? then [Diagnostic(TooManyConstructors(t.name), AtMember(m))] else [])
    ensures Filter(MemberErrors(t, previous, m), IsAbstractError) ==
      (if IsInjectConstructor(m) && previous.None? && t.isAbstract then [Diagnostic(AbstractConstructor(t.name), AtMember(m))] else [])
  {
    var e := MemberErrors(t, previous, m);
    if e != [] {
      assert e == [e[0]];
      FilterSingleton(e[0], IsTooManyError);
      FilterSingleton(e[0], IsAbstractError);
    }
  }

  /** The annotated constructors of `init + [m]`. */
  lemma ConstructorsSnoc(init: seq<Element>, m: Element)
    ensures Filter(init + [m], IsInjectConstructor) ==
      Filter(init, IsInjectConstructor) + (if IsInjectConstructor(m) then [m] else [])
  {
    FilterAppend(init, [m], IsInjectConstructor);
    FilterSingleton(m, IsInjectConstructor);
  }

  /** One iteration keeps the "too many" errors in step with the constructors seen. */
  lemma TooManyErrorsStep(t: TypeRecord, errs: seq<Diagnostic>, e: seq<Diagnostic>,
                          cs: seq<Element>, m: Element, previous: Option<Element>)
    requires Filter(errs, IsTooManyError) == TooManyErrors(t, cs)
    requires previous.Some? <==> cs != []
    requires Filter(e, IsTooManyError) ==
      (if IsInjectConstructor(m) && previous.Some? then [Diagnostic(TooManyConstructors(t.name), AtMember(m))] else [])
    ensures Filter(errs + e, IsTooManyError) == TooManyErrors(t, cs + (if IsInjectConstructor(m) then [m] else []))
  {
    FilterAppend(errs, e, IsTooManyError);
    if IsInjectConstructor(m) {
      TooManyErrorsSnoc(t, cs, m);
    } else {
      assert cs + [] == cs;
    }
  }

  /** One iteration keeps the abstract-class error in step with the constructors seen. */
  lemma AbstractErrorsStep(t: TypeRecord, errs: seq<Diagnostic>, e: seq<Diagnostic>,
                           cs: seq<Element>, m: Element, previous: Option<Element>)
    requires Filter(errs, IsAbstractError) == AbstractErrors(t, cs)
    requires previous.Some? <==> cs != []
    requires Filter(e, IsAbstractError) ==
      (if IsInjectConstructor(m) && previous.None? && t.isAbstract then [Diagnostic(AbstractConstructor(t.name), AtMember(m))] else [])
    ensures Filter(errs + e, IsAbstractError) == AbstractErrors(t, cs + (if IsInjectConstructor(m) then [m] else []))
  {
    FilterAppend(errs, e, IsAbstractError);
    if IsInjectConstructor(m) {
      AbstractErrorsSnoc(t, cs, m);
    } else {
      assert cs + [] == cs;
    }
  }

  /** Every annotated constructor after the first is "too many", reported at
      that constructor and naming the type, in declaration order. */
  lemma {:induction false} ScanTooManyErrors(t: TypeRecord, ms: seq<Element>)
    ensures Filter(Scan(t, ms).errors, IsTooManyError) == TooManyErrors(t, Filter(ms, IsInjectConstructor))
    decreases |ms|
  {
    if ms != [] {
      var init, m := ms[..|ms| - 1], ms[|ms| - 1];
      assert ms == init + [m];
      ScanTooManyErrors(t, init);
      ScanHasCtor(t, init);
      var before := Scan(t, init);
      StepErrors(t, before, m);
      MemberErrorKinds(t, before.ctor, m);
      ConstructorsSnoc(init, m);
      TooManyErrorsStep(t, before.errors, MemberErrors(t, before.ctor, m), Filter(init, IsInjectConstructor), m, before.ctor);
    }
  }

  /** On an abstract type the first annotated constructor is refused, at that
      constructor and naming the type; nothing else causes this error. */
  lemma {:induction false} ScanAbstractErrors(t: TypeRecord, ms: seq<Element>)
    ensures Filter(Scan(t, ms).errors, IsAbstractError) == AbstractErrors(t, Filter(ms, IsInjectConstructor))
    decreases |ms|
  {
    if ms != [] {
      var init, m := ms[..|ms| - 1], ms[|ms| - 1];
      assert ms == init + [m];
      ScanAbstractErrors(t, init);
      ScanHasCtor(t, init);
      var before := Scan(t, init);
      StepErrors(t, before, m);
      MemberErrorKinds(t, before.ctor, m);
      ConstructorsSnoc(init, m);
      AbstractErrorsStep(t, before.errors, MemberErrors(t, before.ctor, m), Filter(init, IsInjectConstructor), m, before.ctor);
    }
  }

  /** How many errors one iteration appends. */
  lemma MemberErrorCount(t: TypeRecord, previous: Option<Element>, m: Element)
    ensures |MemberErrors(t, previous, m)| ==
      (if IsUnsupportedInject(m) then 1
       else if IsInjectConstructor(m) && (previous.Some? || t.isAbstract) then 1
       else 0)
  {
  }

  /** One iteration keeps the error count in step with the members seen. */
  lemma ErrorCountStep(t: TypeRecord, errs: seq<Diagnostic>, e: seq<Diagnostic>, us: seq<Element>,
                       cs: seq<Element>, m: Element, previous: Option<Element>)
    requires |errs| == |us| + (if cs == [] then 0 else if t.isAbstract then |cs| else |cs| - 1)
    requires previous.Some? <==> cs != []
    requires |e| == (if IsUnsupportedInject(m) then 1
                     else if IsInjectConstructor(m) && (previous.Some? || t.isAbstract) then 1
                     else 0)
    ensures var us', cs' := us + (if IsUnsupportedInject(m) then [m] else []), cs + (if IsInjectConstructor(m) then [m] else []);
      |errs + e| == |us'| + (if cs' == [] then 0 else if t.isAbstract then |cs'| else |cs'| - 1)
  {
  }

  /** Nothing else reports an error: each constructor causes at most one. */
  lemma {:induction false} ScanErrorCount(t: TypeRecord, ms: seq<Element>)
    ensures var n := |Filter(ms, IsInjectConstructor)|;
      |Scan(t, ms).errors| == |Filter(ms, IsUnsupportedInject)| + (if n == 0 then 0 else if t.isAbstract then n else n - 1)
    decreases |ms|
  {
    if ms != [] {
      var init, m := ms[..|ms| - 1], ms[|ms| - 1];
      assert ms == init + [m];
      ScanErrorCount(t, init);
      ScanHasCtor(t, init);
      var before := Scan(t, init);
      StepErrors(t, before, m);
      MemberErrorCount(t, before.ctor, m);
      ConstructorsSnoc(init, m);
      FilterAppend(init, [m], IsUnsupportedInject);
      FilterSingleton(m, IsUnsupportedInject);
      ErrorCountStep(t, before.errors, MemberErrors(t, before.ctor, m), Filter(init, IsUnsupportedInject),
                     Filter(init, IsInjectConstructor), m, before.ctor);
    }
  }

  /** Classification reports only the three structural errors, each at the
      member it is about. */
  lemma {:induction false} ScanErrorsStructural(t: TypeRecord, ms: seq<Element>)
    ensures forall d :: d in Scan(t, ms).errors ==>
      IsClassificationError(d) && d.site.AtMember? && d.site.member in ms
    decreases |ms|
  {
    if ms != [] {
      var init, m := ms[..|ms| - 1], ms[|ms| - 1];
      ScanErrorsStructural(t, init);
      StepErrors(t, Scan(t, init), m);
      assert forall x :: x in init ==> x in ms;
    }
  }

  // ---------------------------------------------------------------------------
  // The permissive no-argument-constructor fallback.

  /** `findNoArgsConstructor`: the first constructor (annotated or not) without
      parameters, unless that one is private; none if there is none. */
  function NoArgsConstructor(ms: seq<Element>): Option<Element> {
    var zs := Filter(ms, IsNoArgsConstructor);
    if zs == [] || zs[0].isPrivate then None else Some(zs[0])
  }

  /** The fallback is decided by the first parameterless constructor alone. */
  lemma NoArgsConstructorAt(ms: seq<Element>, i: nat)
    requires i < |ms| && IsNoArgsConstructor(ms[i])
    requires forall k :: 0 <= k < i ==> !IsNoArgsConstructor(ms[k])
    ensures NoArgsConstructor(ms) == if ms[i].isPrivate then None else Some(ms[i])
  {
    assert ms == ms[..i] + ms[i..];
    FilterAppend(ms[..i], ms[i..], IsNoArgsConstructor);
    FilterNone(ms[..i], IsNoArgsConstructor);
    assert ms[i..][0] == ms[i];
  }

  /** Without a parameterless constructor there is no fallback, and no error. */
  lemma NoArgsConstructorAbsent(ms: seq<Element>)
    requires forall k :: 0 <= k < |ms| ==> !IsNoArgsConstructor(ms[k])
    ensures NoArgsConstructor(ms) == None
  {
    FilterNone(ms, IsNoArgsConstructor);
  }

  method FindNoArgsConstructor(ms: seq<Element>) returns (c: Option<Element>)
    ensures c == NoArgsConstructor(ms)
  {
    for i := 0 to |ms|
      invariant forall k :: 0 <= k < i ==> !IsNoArgsConstructor(ms[k])
    {
      var element := ms[i];
      if element.kind != Constructor {
        continue;
      }
      if element.parameters == [] {
        NoArgsConstructorAt(ms, i);
        if element.isPrivate {
          return None;
        } else {
          return Some(element);
        }
      }
    }
    NoArgsConstructorAbsent(ms);
    return None;
  }

  // ---------------------------------------------------------------------------
  // The whole classification.

  /** An `InjectedClass` together with the errors its classification reports. */
  datatype Classified = Classified(injected: InjectedClass, errors: seq<Diagnostic>)

  /** `getInjectedClass`: the member loop, then the fallback when no `@Inject`
      ctor was found and the type is not abstract. */
  function Classify(t: TypeRecord): Classified {
    var s := Scan(t, t.members);
    var chosen := if s.ctor.None? && !t.isAbstract then NoArgsConstructor(t.members) else s.ctor;
    Classified(InjectedClass(t, s.staticFields, chosen, s.fields), s.errors)
  }

  /** What the classification selects, stated on the declared member list. */
  lemma ClassifyMembers(t: TypeRecord)
    ensures var c := Classify(t).injected;
      && c.typeRecord == t
      && c.staticFields == Filter(t.members, IsInjectStaticField)
      && c.fields == Filter(t.members, IsInjectInstanceField)
    ensures var c := Classify(t).injected; var ctors := Filter(t.members, IsInjectConstructor);
      c.ctor == if ctors != [] then Some(ctors[|ctors| - 1])
                       else if t.isAbstract then None
                       else NoArgsConstructor(t.members)
  {
    ScanSelects(t, t.members);
  }

  /** The errors the classification reports, stated on the declared member
      list; the ctor fallback adds none. */
  lemma ClassifyErrors(t: TypeRecord)
    ensures Filter(Classify(t).errors, IsCannotInjectError) == CannotInjectErrors(Filter(t.members, IsUnsupportedInject))
    ensures Filter(Classify(t).errors, IsTooManyError) == TooManyErrors(t, Filter(t.members, IsInjectConstructor))
    ensures Filter(Classify(t).errors, IsAbstractError) == AbstractErrors(t, Filter(t.members, IsInjectConstructor))
    ensures var n := |Filter(t.members, IsInjectConstructor)|;
      |Classify(t).errors| == |Filter(t.members, IsUnsupportedInject)| + (if n == 0 then 0 else if t.isAbstract then n else n - 1)
  {
    ScanCannotInjectErrors(t, t.members);
    ScanTooManyErrors(t, t.members);
    ScanAbstractErrors(t, t.members);
    ScanErrorCount(t, t.members);
  }

  /** A second `@Inject` constructor, or one on an abstract type, is reported
      at that constructor; the last annotated constructor is still the one
      chosen. `cs` are the annotated constructors. */
  lemma ReportedConstructorKept(t: TypeRecord, cs: seq<Element>)
    requires cs == Filter(t.members, IsInjectConstructor) && cs != []
    ensures Classify(t).injected.ctor == Some(cs[|cs| - 1])
    ensures |cs| >= 2 ==> Diagnostic(TooManyConstructors(t.name), AtMember(cs[1])) in Classify(t).errors
    ensures t.isAbstract ==> Diagnostic(AbstractConstructor(t.name), AtMember(cs[0])) in Classify(t).errors
  {
    ClassifyMembers(t);
    ClassifyErrors(t);
    FilterMembers(Classify(t).errors, IsTooManyError);
    FilterMembers(Classify(t).errors, IsAbstractError);
    if |cs| >= 2 {
      assert TooManyErrors(t, cs)[0] == Diagnostic(TooManyConstructors(t.name), AtMember(cs[1]));
    }
  }

  /** Classification reports nothing but structural errors at declared members. */
  lemma ClassifyErrorsStructural(t: TypeRecord)
    ensures forall d :: d in Classify(t).errors ==>
      IsClassificationError(d) && d.site.AtMember? && d.site.member in t.members
  {
    ScanErrorsStructural(t, t.members);
  }

  method GetInjectedClass(t: TypeRecord) returns (injected: InjectedClass, errors: seq<Diagnostic>)
    ensures Classified(injected, errors) == Classify(t)
  {
    var isAbstract := t.isAbstract;
    var staticFields: seq<Element> := [];
    var ctor: Option<Element> := None;
    var fields: seq<Element> := [];
    errors := [];
    for i := 0 to |t.members|
      invariant ScanState(staticFields, ctor, fields, errors) == Scan(t, t.members[..i])
    {
      var member := t.members[i];
      assert t.members[..i + 1][..i] == t.members[..i];
      if !member.inject {
        continue;
      }
      match member.kind {
        case Field =>
          if member.isStatic {
            staticFields := staticFields + [member];
          } else {
            fields := fields + [member];
          }
        case Constructor =>
          if ctor.Some? {
            errors := errors + [Diagnostic(TooManyConstructors(t.name), AtMember(member))];
          } else if isAbstract {
            errors := errors + [Diagnostic(AbstractConstructor(t.name), AtMember(member))];
          }
          ctor := Some(member);
        case _ =>
          errors := errors + [Diagnostic(CannotInject(member), AtMember(member))];
      }
    }
    assert t.members[..|t.members|] == t.members;
    if ctor.None? && !isAbstract {
      ctor := FindNoArgsConstructor(t.members);
    }
    injected := InjectedClass(t, staticFields, ctor, fields);
  }

  // ---------------------------------------------------------------------------
  // Readiness: every referenced type is resolved in this round.

  predicate AllResolved(es: seq<Element>) {
    forall i :: 0 <= i < |es| ==> es[i].resolved
  }

  /** `allTypesExist`: no element's type is of kind ERROR. */
  method AllTypesExist(elements: seq<Element>) returns (b: bool)
    ensures b <==> AllResolved(elements)
  {
    for i := 0 to |elements|
      invariant forall k :: 0 <= k < i ==> elements[k].resolved
    {
      if !elements[i].resolved {
        return false;
      }
    }
    return true;
  }

  /** Instance fields, constructor parameters (if there is a constructor) and
      static fields all have resolved types. */
  predicate Ready(c: InjectedClass) {
    && AllResolved(c.fields)
    && (c.ctor.Some? ==> AllResolved(c.ctor.value.parameters))
    && AllResolved(c.staticFields)
  }

  /** A type is ready exactly when all its `@Inject` fields, static or not, are
      resolved and so are the parameters of the ctor chosen for it. */
  lemma ReadyMeans(t: TypeRecord)
    ensures Ready(Classify(t).injected) <==>
      && (forall m :: m in t.members && m.inject && m.kind == Field ==> m.resolved)
      && (Classify(t).injected.ctor.Some? ==>
            AllResolved(Classify(t).injected.ctor.value.parameters))
  {
    ClassifyMembers(t);
    FilterMembers(t.members, IsInjectStaticField);
    FilterMembers(t.members, IsInjectInstanceField);
    var c := Classify(t).injected;
    if forall m :: m in t.members && m.inject && m.kind == Field ==> m.resolved {
      assert forall i :: 0 <= i < |c.fields| ==> c.fields[i] in t.members;
      assert forall i :: 0 <= i < |c.staticFields| ==> c.staticFields[i] in t.members;
    }
    if AllResolved(c.fields) && AllResolved(c.staticFields) {
      forall m | m in t.members && m.inject && m.kind == Field ensures m.resolved {
        if m.isStatic {
          assert m in c.staticFields;
        } else {
          assert m in c.fields;
        }
      }
    }
  }

  /** A type with no members at all is ready at once, with nothing to inject
      and nothing to report. */
  lemma EmptyTypeIsReady(t: TypeRecord)
    requires t.members == []
    ensures var c := Classify(t);
      && Ready(c.injected) && c.errors == []
      && c.injected.staticFields == [] && c.injected.fields == [] && c.injected.ctor == None
  {
  }
}
