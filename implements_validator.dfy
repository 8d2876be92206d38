/*
 * The annotation processor's checks on @Implements shadow classes: the
 * decision table at the top of visitType, the SDK-check mode gates around
 * Problems, and the small element helpers.
 */
module ImplementsValidator {
  import opened Wrappers
  import opened ProblemReports

  /** Shadows whose maxSdk lies below this value apply to no current SDK. */
  const MaxSupportedAndroidSdk: int := 10000

  /** How @Implementation methods are checked against the SDKs. */
  datatype SdkCheckMode = ModeOff | ModeWarn | ModeError

  // ---------------------------------------------------------------------
  // The two SDK checks on one shadow method

  /** What one SDK's verifyMethod answered: a problem, or None for none. */
  datatype SdkResult = SdkResult(sdkInt: int, problem: Option<string>)

  /** The reports verifySdkMethod adds: the SDKs where a problem was found. */
  function Failures(results: seq<SdkResult>): (r: seq<Report>)
    ensures forall p, x :: Report(p, x) in r <==> SdkResult(x, Some(p)) in results
    ensures r == [] <==> forall s :: s in results ==> s.problem == None
  {
    if results == [] then []
    else
      var init := results[..|results| - 1];
      var last := results[|results| - 1];
      assert results == init + [last];
      Failures(init) + (if last.problem.Some? then [Report(last.problem.value, last.sdkInt)] else [])
  }

  /** The problem text of a method that lacks @Implementation. */
  function MissingImplementation(methodName: string): (r: string)
    ensures |r| == 34 + |methodName|
    ensures r[..34] == "Missing @Implementation on method " && r[34..] == methodName
  {
    "Missing @Implementation on method " + methodName
  }

  /**
   * The problem text names its method: two methods share a text only if
   * they share a name, so their reports are never merged under one problem.
   */
  lemma MissingImplementationNamesMethod(a: string, b: string)
    ensures MissingImplementation(a) == MissingImplementation(b) <==> a == b
  {
    if MissingImplementation(a) == MissingImplementation(b) {
      assert a == MissingImplementation(a)[34..];
    }
  }

  /** The reports checkForMissingImplementationAnnotation adds: the SDKs where none was. */
  function Unimplemented(methodName: string, results: seq<SdkResult>): (r: seq<Report>)
    ensures forall p, x :: Report(p, x) in r <==>
      p == MissingImplementation(methodName) && SdkResult(x, None) in results
    ensures r == [] <==> forall s :: s in results ==> s.problem != None
  {
    if results == [] then []
    else
      var init := results[..|results| - 1];
      var last := results[|results| - 1];
      assert results == init + [last];
      Unimplemented(methodName, init)
        + (if last.problem.None? then [Report(MissingImplementation(methodName), last.sdkInt)] else [])
  }

  /**
   * Feeds the reports to a fresh Problems of the given kind and recounts it
   * if any(): nothing is printed exactly when nothing was reported.
   */
  method Collect(kind: Kind, reports: seq<Report>) returns (diags: seq<Diagnostic>)
    ensures RecountOf(diags, kind, Aggregate(reports))
    ensures diags == [] <==> reports == []
  {
    var problems := new Problems(kind);
    for i := 0 to |reports|
      invariant problems.Valid() && problems.kind == kind && problems.added == reports[..i]
    {
      problems.Add(reports[i].problem, reports[i].sdkInt);
      assert reports[..i + 1] == reports[..i] + [reports[i]];
    }
    assert reports[..|reports|] == reports;
    AggregateKeys(reports);
    diags := [];
    if problems.Any() {
      diags := problems.Recount();
    }
  }

  /**
   * verifySdkMethod: with the check off, or on a method without
   * @Implementation, nothing is reported; otherwise every SDK whose check
   * found a problem is reported, grouped by problem, at WARNING kind in
   * WARN mode and ERROR kind in ERROR mode.
   */
  method VerifySdkMethod(mode: SdkCheckMode, hasImplementation: bool, results: seq<SdkResult>)
    returns (diags: seq<Diagnostic>)
    ensures mode == ModeOff || !hasImplementation ==> diags == []
    ensures mode != ModeOff && hasImplementation ==>
      && RecountOf(diags, if mode == ModeWarn then Warning else Error, Aggregate(Failures(results)))
      && (diags == [] <==> forall r :: r in results ==> r.problem == None)
  {
    diags := [];
    if mode == ModeOff {
      return;
    }
    if hasImplementation {
      var kind := if mode == ModeWarn then Warning else Error;
      diags := Collect(kind, Failures(results));
    }
  }

  /**
   * checkForMissingImplementationAnnotation: with the check off, or on a
   * method that has @Implementation, nothing is reported; otherwise every
   * SDK whose check found no problem is reported as a missing annotation,
   * at WARNING kind in WARN mode and ERROR kind in ERROR mode.
   */
  method CheckForMissingImplementationAnnotation(mode: SdkCheckMode, hasImplementation: bool,
                                                 methodName: string, results: seq<SdkResult>)
    returns (diags: seq<Diagnostic>)
    ensures mode == ModeOff || hasImplementation ==> diags == []
    ensures mode != ModeOff && !hasImplementation ==>
      && RecountOf(diags, if mode == ModeWarn then Warning else Error, Aggregate(Unimplemented(methodName, results)))
      && (diags == [] <==> forall r :: r in results ==> r.problem != None)
  {
    diags := [];
    if mode == ModeOff {
      return;
    }
    if !hasImplementation {
      var kind := if mode == ModeWarn then Warning else Error;
      diags := Collect(kind, Unimplemented(methodName, results));
    }
  }

  // ---------------------------------------------------------------------
  // Element helpers

  datatype ElementKind =
    | PackageKind | ClassKind | InterfaceKind | EnumKind | AnnotationTypeKind
    | MethodKind | ConstructorKind | OtherKind

  /** A program element: a package, or a declaration inside another element. */
  datatype Element =
    | Package(qualifiedName: string)
    | Declared(kind: ElementKind, simpleName: string, qualifiedName: string, enclosing: Element)

  function KindOf(e: Element): ElementKind
  {
    if e.Package? then PackageKind else e.kind
  }

  /** isClassy: classes and interfaces, and no other kind of element. */
  function IsClassy(kind: ElementKind): (r: bool)
    ensures kind == ClassKind || kind == InterfaceKind ==> r
    ensures r ==> kind == ClassKind || kind == InterfaceKind
  {
    kind == ClassKind || kind == InterfaceKind
  }

  /**
   * The binary-style name: the qualified name of the outermost enclosing
   * class or interface, then "$" and the simple name of each nested level.
   */
  function ClassFQName(e: Element): string
    requires e.Declared?
  {
    if IsClassy(KindOf(e.enclosing)) then ClassFQName(e.enclosing) + "$" + e.simpleName
    else e.qualifiedName
  }

  /** getClassFQName: walks outwards while the enclosing element is classy. */
  method GetClassFQName(elem: Element) returns (name: string)
    requires elem.Declared?
    ensures name == ClassFQName(elem)
  {
    name := "";
    var e := elem;
    while IsClassy(KindOf(e.enclosing))
      invariant e.Declared?
      invariant ClassFQName(e) + name == ClassFQName(elem)
      decreases e
    {
      name := "$" + e.simpleName + name;
      e := e.enclosing;
    }
    name := e.qualifiedName + name;
  }

  /** A class Inner nested in a class Outer of package a.b is named "a.b.Outer$Inner". */
  lemma ClassFQNameNested()
    ensures ClassFQName(Declared(ClassKind, "Inner", "a.b.Outer.Inner",
      Declared(ClassKind, "Outer", "a.b.Outer", Package("a.b")))) == "a.b.Outer$Inner"
  {
  }

  /**
   * The walk stops at any enclosing element that is not a class or an
   * interface (a package, an enum, an annotation type, a method, a
   * constructor): the element there keeps its qualified name.
   */
  lemma ClassFQNameStopsOutsideClasses(kind: ElementKind, simpleName: string, qualifiedName: string, outer: Element)
    requires KindOf(outer) != ClassKind && KindOf(outer) != InterfaceKind
    ensures ClassFQName(Declared(kind, simpleName, qualifiedName, outer)) == qualifiedName
  {
  }

  /**
   * suppressWarnings: each entry of `suppressions` is the value list of one
   * @SuppressWarnings annotation on the element.
   */
  method SuppressWarnings(suppressions: seq<seq<string>>, warningName: string) returns (r: bool)
    ensures r <==> exists i, j :: (0 <= i < |suppressions| && 0 <= j < |suppressions[i]| &&
      suppressions[i][j] == warningName)
  {
    for i := 0 to |suppressions|
      invariant forall i', j :: 0 <= i' < i && 0 <= j < |suppressions[i']| ==>
        suppressions[i'][j] != warningName
    {
      for j := 0 to |suppressions[i]|
        invariant forall j' :: 0 <= j' < j ==> suppressions[i][j'] != warningName
      {
        if warningName == suppressions[i][j] {
          return true;
        }
      }
    }
    return false;
  }

  /** sdkOrNull: -1 means "not set". */
  function SdkOrNull(sdk: int): (r: Option<int>)
    ensures r == None <==> sdk == -1
    ensures r != None ==> r.value == sdk
  {
    if sdk == -1 then None else Some(sdk)
  }

  // ---------------------------------------------------------------------
  // The attribute checks at the top of visitType

  /** The value attribute: whether its type mirror is present, and whether it names a type. */
  datatype ValueAttribute = ValueAttribute(hasMirror: bool, namesType: bool)

  /** The @Implements attributes visitType inspects; maxSdk is -1 when absent. */
  datatype Implements = Implements(value: Option<ValueAttribute>, className: Option<string>, maxSdk: int)

  datatype VisitError =
    | InnerShadowNotStatic
    | NeitherValueNorClassName
    | UnresolvedClassName(className: string)
    | BothValueAndClassName

  /** Where visitType goes after the attribute checks. */
  datatype NextStep = ShadowNotInSdk | Stop | ValidateShadow

  datatype Verdict = Verdict(errors: seq<VisitError>, next: NextStep)

  /**
   * The decision table of visitType up to the type-parameter comparison.
   * `classNameResolves` is whether the className names a known type and
   * `ignoreMissingClass` whether the shadow suppresses
   * "robolectric.internal.IgnoreMissingClass".
   */
  function CheckAttributes(a: Implements, enclosingKind: ElementKind, isStatic: bool,
                           classNameResolves: bool, ignoreMissingClass: bool): (v: Verdict)
    ensures (InnerShadowNotStatic in v.errors) <==> enclosingKind == ClassKind && !isStatic
    ensures a.maxSdk != -1 && a.maxSdk < MaxSupportedAndroidSdk ==>
      && v.next == ShadowNotInSdk
      && v.errors == (if enclosingKind == ClassKind && !isStatic then [InnerShadowNotStatic] else [])
    ensures v.next == ValidateShadow ==>
      && (a.maxSdk == -1 || a.maxSdk >= MaxSupportedAndroidSdk)
      && (a.value == None <==> a.className != None)
    ensures (a.maxSdk == -1 || a.maxSdk >= MaxSupportedAndroidSdk) && a.value == None && a.className == None ==>
      NeitherValueNorClassName in v.errors && v.next == Stop
    ensures (a.maxSdk == -1 || a.maxSdk >= MaxSupportedAndroidSdk) && a.value != None
      && a.value.value.hasMirror && a.className != None
      ==> BothValueAndClassName in v.errors && v.next == ShadowNotInSdk
  {
    var staticCheck := if enclosingKind == ClassKind && !isStatic then [InnerShadowNotStatic] else [];
    if a.maxSdk != -1 && a.maxSdk < MaxSupportedAndroidSdk then Verdict(staticCheck, ShadowNotInSdk)
    else if a.value == None then
      if a.className == None then Verdict(staticCheck + [NeitherValueNorClassName], Stop)
      else if !classNameResolves && !ignoreMissingClass then
        Verdict(staticCheck + [UnresolvedClassName(a.className.value)], Stop)
      else if !classNameResolves then Verdict(staticCheck, ShadowNotInSdk)
      else Verdict(staticCheck, ValidateShadow)
    else if !a.value.value.hasMirror then Verdict(staticCheck, Stop)
    else if a.className != None then Verdict(staticCheck + [BothValueAndClassName], ShadowNotInSdk)
    else if !a.value.value.namesType then Verdict(staticCheck, ShadowNotInSdk)
    else Verdict(staticCheck, ValidateShadow)
  }
}
