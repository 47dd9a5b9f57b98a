/** What the type texts of a method signature name, and which methods a build profile therefore keeps. */
module SignatureTypes {
  import opened Wrappers
  import opened ByteText
  import opened BuildProfile

  /** The forms of type text: a name, with what may stand around it; an enumeration of a class, or of no class. */
  datatype Form =
    | Plain(n: string)
    | Const(n: string)
    | Pointer(n: string)
    | ConstPointer(n: string)
    | TypedArray(n: string)
    | EnumOf(n: string, e: string)
    | BitfieldOf(n: string, e: string)
    | GlobalEnum(e: string)
    | GlobalBitfield(e: string)

  function Text(f: Form): string {
    match f
    case Plain(n) => n
    case Const(n) => "const " + n
    case Pointer(n) => n + "*"
    case ConstPointer(n) => "const " + n + "*"
    case TypedArray(n) => "typedarray::" + n
    case EnumOf(n, e) => "enum::" + n + "." + e
    case BitfieldOf(n, e) => "bitfield::" + n + "." + e
    case GlobalEnum(e) => "enum::" + e
    case GlobalBitfield(e) => "bitfield::" + e
  }

  /** The name that the form is about. */
  function Named(f: Form): string {
    match f
    case GlobalEnum(_) => "GlobalConstants"
    case GlobalBitfield(_) => "GlobalConstants"
    case _ => f.n
  }

  /** A name as the API has them: without the marks that the forms put around it. */
  predicate IsPlainName(n: string) {
    '.' !in n && ':' !in n && '*' !in n && ' ' !in n
  }

  predicate IsProper(f: Form) {
    match f
    case GlobalEnum(e) => '.' !in e && '*' !in e
    case GlobalBitfield(e) => '.' !in e && '*' !in e
    case EnumOf(n, e) => IsPlainName(n) && '*' !in e
    case BitfieldOf(n, e) => IsPlainName(n) && '*' !in e
    case _ => IsPlainName(f.n)
  }

  // ---------- Texts without a mark ----------

  lemma NotAt(s: string, p: string, j: nat, k: nat)
    requires j + |p| <= |s| && k < |p| && s[j + k] != p[k]
    ensures !OccursAt(s, p, j)
  {
    assert s[j..j + |p|][k] == s[j + k];
  }

  lemma NoneToRemove(s: string, p: string, c: char, k: nat)
    requires k < |p| && p[k] == c && c !in s
    ensures RemoveAll(s, p) == s
  {
    hide Find, OccursAt;
    forall j: nat
      ensures !OccursAt(s, p, j)
    {
      if j + |p| <= |s| {
        NotAt(s, p, j, k);
      } else {
        PastEnd(s, p, j);
      }
    }
    FindIsNone(s, p, 0);
  }

  lemma PastEnd(s: string, p: string, j: nat)
    requires j + |p| > |s|
    ensures !OccursAt(s, p, j)
  {
  }

  lemma FirstRemoved(p: string, s: string)
    requires p != ""
    ensures RemoveAll(p + s, p) == RemoveAll(s, p)
  {
    hide Find;
    assert (p + s)[0..|p|] == p && (p + s)[|p|..] == s && (p + s)[..0] == "";
    FindIs(p + s, p, 0, 0);
  }

  lemma RemoveAllIs(s: string, p: string)
    requires p != ""
    ensures var at := Find(s, p, 0);
      if at.None? then RemoveAll(s, p) == s
      else at.value + |p| <= |s| && RemoveAll(s, p) == s[..at.value] + RemoveAll(s[at.value + |p|..], p)
  {
    hide Find;
  }

  lemma KeptBeforeDot(n: string, e: string, i: nat, later: string)
    requires |n| < i <= |n + "." + e|
    ensures (n + "." + e)[..i] + later == n + "." + ((n + "." + e)[|n| + 1..i] + later)
  {
    assert (n + "." + e)[..|n|] == n;
  }

  /** What comes before a dot stays, when what is removed has no dot but another mark that it lacks. */
  lemma RemovedAfterDot(n: string, e: string, p: string, k: nat)
    requires k < |p| && p[k] == ':' && ':' !in n && '.' !in p && '.' !in n
    ensures UpToDot(RemoveAll(n + "." + e, p)) == n
  {
    hide *;
    var s := n + "." + e;
    RemoveAllIs(s, p);
    if Find(s, p, 0).None? {
      UpToDotIs(n, e);
    } else {
      var i := Find(s, p, 0).value;
      DotBefore(n, e, p, k, i);
      var later := RemoveAll(s[i + |p|..], p);
      KeptBeforeDot(n, e, i, later);
      UpToDotIs(n, s[|n| + 1..i] + later);
    }
  }

  lemma DotBefore(n: string, e: string, p: string, k: nat, i: nat)
    requires k < |p| && p[k] == ':' && ':' !in n && '.' !in p && Find(n + "." + e, p, 0) == Some(i)
    ensures |n| < i && i + |p| <= |n + "." + e|
  {
    hide Find;
    var s := n + "." + e;
    FindBounds(s, p, 0);
    assert s[i..i + |p|] == p && s[|n|] == '.';
    assert forall j :: i <= j < i + |p| ==> s[j] == s[i..i + |p|][j - i] == p[j - i] != '.';
    assert s[i + k] == ':' && forall j :: 0 <= j < |n| ==> s[j] == n[j] != ':';
    assert i + k > |n|;
  }

  lemma UpToDotIs(n: string, e: string)
    requires '.' !in n
    ensures UpToDot(n + "." + e) == n
  {
    hide Find;
    FindByte(n, '.', e);
    assert n + "." + e == n + ['.'] + e;
  }

  // ---------- What a type text names ----------

  ghost predicate ArePlain(engine: set<string>) {
    forall n :: n in engine ==> IsPlainName(n)
  }

  lemma NoPrefix(s: string, p: string, c: char, k: nat)
    requires k < |p| && p[k] == c && c !in s
    ensures !StartsWith(s, p)
  {
    assert |p| <= |s| ==> s[..|p|][k] == s[k];
  }

  lemma NoStarAtEnd(s: string)
    requires '*' !in s
    ensures !EndsWith(s, "*")
  {
    assert |s| >= 1 ==> s[|s| - 1..][0] == s[|s| - 1];
  }

  /** A plain name is the base of itself, and no enumeration. */
  lemma PlainBase(n: string)
    requires IsPlainName(n)
    ensures BaseType(n) == n && !IsEnum(n)
    ensures !StartsWith(n, "const ") && !EndsWith(n, "*") && !StartsWith(n, "typedarray::")
  {
    NoPrefix(n, "const ", ' ', 5);
    NoPrefix(n, "typedarray::", ':', 10);
    NoPrefix(n, "enum::", ':', 4);
    NoPrefix(n, "bitfield::", ':', 8);
    NoStarAtEnd(n);
    hide StartsWith, EndsWith, RemoveAll;
  }

  lemma PointerBase(n: string)
    requires IsPlainName(n)
    ensures BaseType(n + "*") == n
  {
    PlainBase(n);
    var s := n + "*";
    assert !StartsWith(s, "const ") by { NoPrefix(s, "const ", ' ', 5); }
    assert EndsWith(s, "*") && s[..|s| - 1] == n;
    hide RemoveAll;
  }

  lemma ConstBase(n: string)
    requires IsPlainName(n)
    ensures BaseType("const " + n) == n && BaseType("const " + n + "*") == n
  {
    PlainBase(n);
    var s := "const " + n + "*";
    assert ("const " + n)[6..] == n && StartsWith("const " + n, "const ");
    assert s[6..] == n + "*" && StartsWith(s, "const ") && (n + "*")[..|n|] == n && EndsWith(n + "*", "*");
    hide RemoveAll;
  }

  lemma ArrayBase(n: string)
    requires IsPlainName(n)
    ensures BaseType("typedarray::" + n) == n
  {
    var p, s := "typedarray::", "typedarray::" + n;
    NoPrefix(s, "const ", ' ', 5);
    NoStarAtEnd(s);
    NoneToRemove(n, p, ':', 10);
    FirstRemoved(p, n);
    assert StartsWith(s, p);
    hide RemoveAll;
  }

  /** The text of an enumeration is its own base. */
  lemma EnumBase(mark: string, rest: string)
    requires (mark == "enum::" || mark == "bitfield::") && '*' !in rest
    ensures var s := mark + rest; BaseType(s) == s && IsEnum(s) && (IsBitfield(s) <==> mark == "bitfield::") && ':' in s
  {
    var s := mark + rest;
    assert s[..|mark|] == mark && s[0] == mark[0] && mark[0] in "eb";
    NoStarAtEnd(s);
    OtherStart(s, "const ");
    OtherStart(s, "typedarray::");
    assert s[|mark| - 1] == ':';
    if mark == "enum::" {
      OtherStart(s, "bitfield::");
    }
    hide RemoveAll, EndsWith;
  }

  lemma OtherStart(s: string, p: string)
    requires s != "" && p != "" && s[0] != p[0]
    ensures !StartsWith(s, p)
  {
    assert |p| <= |s| ==> s[..|p|][0] == s[0];
  }

  lemma EnumClassIs(s: string, mark: string)
    requires (mark == "enum::" || mark == "bitfield::") && '.' in s && (IsBitfield(s) <==> mark == "bitfield::")
    ensures EnumClass(s) == UpToDot(RemoveAll(s, mark))
  {
    hide RemoveAll, UpToDot, IsBitfield;
  }

  lemma EnumOfClass(mark: string, n: string, e: string)
    requires (mark == "enum::" || mark == "bitfield::") && IsPlainName(n) && '*' !in e
    ensures EnumClass(mark + (n + "." + e)) == n
  {
    MarkEnds(mark, n);
    hide *;
    var rest := n + "." + e;
    NoStars(n, e);
    assert rest[|n|] == '.';
    EnumBase(mark, rest);
    EnumClassIs(mark + rest, mark);
    FirstRemoved(mark, rest);
    RemovedAfterDot(n, e, mark, |mark| - 1);
  }

  lemma MarkEnds(mark: string, n: string)
    requires mark == "enum::" || mark == "bitfield::"
    ensures mark != "" && mark[|mark| - 1] == ':' && '.' !in mark
    ensures IsPlainName(n) ==> ':' !in n && '.' !in n && '*' !in n
  {
  }

  lemma NoStars(n: string, e: string)
    requires '*' !in n && '*' !in e
    ensures '*' !in n + "." + e
  {
  }

  lemma EnumOfNone(mark: string, e: string)
    requires (mark == "enum::" || mark == "bitfield::") && '.' !in e
    ensures EnumClass(mark + e) == "GlobalConstants"
  {
    assert '.' !in mark;
    hide RemoveAll, UpToDot;
  }

  lemma BaseDecides(text: string, engine: set<string>)
    ensures var base := BaseType(text);
      ClassOf(text, engine)
      == if base in engine then {base}
         else if IsEnum(base) && EnumClass(base) in engine then {EnumClass(base)} else {}
  {
    hide BaseType, IsEnum, EnumClass;
  }

  lemma EnumNames(mark: string, rest: string, engine: set<string>, n: string)
    requires (mark == "enum::" || mark == "bitfield::") && '*' !in rest && ArePlain(engine)
    requires EnumClass(mark + rest) == n
    ensures ClassOf(mark + rest, engine) == if n in engine then {n} else {}
  {
    EnumBase(mark, rest);
    BaseDecides(mark + rest, engine);
    hide BaseType, IsEnum, EnumClass, ClassOf, IsBitfield;
  }

  /** Whatever stands around it, the name is what is recognised, and nothing else is. */
  lemma FormNames(f: Form, engine: set<string>)
    requires IsProper(f) && ArePlain(engine)
    ensures ClassOf(Text(f), engine) == if Named(f) in engine then {Named(f)} else {}
  {
    hide ClassOf, BaseType, IsEnum, EnumClass, ArePlain, IsPlainName, IsBitfield;
    BaseDecides(Text(f), engine);
    match f
    case Plain(n) => PlainBase(n);
    case Const(n) => ConstBase(n); PlainBase(n);
    case Pointer(n) => PointerBase(n); PlainBase(n);
    case ConstPointer(n) => ConstBase(n); PlainBase(n);
    case TypedArray(n) => ArrayBase(n); PlainBase(n);
    case EnumOf(n, e) => EnumOfNames("enum::", n, e, engine);
    case BitfieldOf(n, e) => EnumOfNames("bitfield::", n, e, engine);
    case GlobalEnum(e) => EnumOfNone("enum::", e); EnumNames("enum::", e, engine, "GlobalConstants");
    case GlobalBitfield(e) => EnumOfNone("bitfield::", e); EnumNames("bitfield::", e, engine, "GlobalConstants");
  }

  lemma EnumOfNames(mark: string, n: string, e: string, engine: set<string>)
    requires (mark == "enum::" || mark == "bitfield::") && IsPlainName(n) && '*' !in e && ArePlain(engine)
    ensures ClassOf(mark + n + "." + e, engine) == if n in engine then {n} else {}
  {
    MarkEnds(mark, n);
    hide *;
    NoStars(n, e);
    EnumOfClass(mark, n, e);
    assert mark + n + "." + e == mark + (n + "." + e);
    EnumNames(mark, n + "." + e, engine, n);
  }

  // ---------- Which methods stay ----------

  /** The name of a class of the API, or of one of its native structures other than the object id. */
  predicate IsRecognised(api: Api, n: string) {
    (exists c :: c in api.classes && c.name == n) || (n in api.structures && n != "ObjectID")
  }

  ghost predicate HasPlainNames(api: Api) {
    (forall c :: c in api.classes ==> IsPlainName(c.name)) && forall s :: s in api.structures ==> IsPlainName(s)
  }

  lemma RecognisedNames(api: Api)
    ensures forall n :: n in EngineNames(api) <==> IsRecognised(api, n)
    ensures HasPlainNames(api) ==> ArePlain(EngineNames(api))
  {
    hide IsPlainName;
  }

  ghost predicate HasTypes(m: Method, result: Form, arguments: seq<Form>) {
    && m.returnType == Text(result) && IsProper(result) && |m.arguments| == |arguments|
    && forall i :: 0 <= i < |arguments| ==> m.arguments[i] == Text(arguments[i]) && IsProper(arguments[i])
  }

  lemma {:induction false} ArgumentsName(types: seq<string>, forms: seq<Form>, engine: set<string>, d: string)
    requires |types| == |forms| && ArePlain(engine)
    requires forall i :: 0 <= i < |forms| ==> types[i] == Text(forms[i]) && IsProper(forms[i])
    ensures d in ClassesOf(types, engine) <==> d in engine && exists i :: 0 <= i < |forms| && Named(forms[i]) == d
  {
    hide Text, IsProper, ClassOf, ArePlain, Named;
    if types == [] {
    } else {
      var k := |types| - 1;
      ArgumentsName(types[..k], forms[..k], engine, d);
      FormNames(forms[k], engine);
      assert forall i :: 0 <= i < k ==> forms[..k][i] == forms[i];
    }
  }

  /** The list keeps a class. */
  predicate Keeps(lists: Lists, n: string) {
    (lists.included == [] || n in lists.included) && (lists.excluded == [] || n !in lists.excluded)
  }

  /** The names that the signature recognises. */
  ghost predicate IsNamed(api: Api, result: Form, arguments: seq<Form>, d: string) {
    IsRecognised(api, d) && (Named(result) == d || exists i :: 0 <= i < |arguments| && Named(arguments[i]) == d)
  }

  lemma MentionsAre(api: Api, m: Method, result: Form, arguments: seq<Form>, d: string)
    requires HasPlainNames(api) && HasTypes(m, result, arguments)
    ensures d in Mentions(m, EngineNames(api)) <==> IsNamed(api, result, arguments, d)
  {
    RecognisedNames(api);
    hide EngineNames, ClassOf, ClassesOf, IsRecognised, Named, HasPlainNames, Text, IsProper;
    FormNames(result, EngineNames(api));
    ArgumentsName(m.arguments, arguments, EngineNames(api), d);
  }

  lemma StaysIf(m: Method, lists: Lists, engine: set<string>)
    ensures MethodStays(m, lists, engine) <==> forall d :: d in Mentions(m, engine) ==> Keeps(lists, d)
  {
    hide Mentions;
  }

  /**
   A method stays exactly when each list keeps the classes that its result and its arguments name: bare, constant, as
   pointers, as elements of arrays or as owners of enumerations.
   */
  lemma SignatureStays(api: Api, lists: Lists, m: Method, result: Form, arguments: seq<Form>)
    requires HasPlainNames(api) && HasTypes(m, result, arguments)
    ensures MethodStays(m, lists, EngineNames(api)) <==>
      && (IsRecognised(api, Named(result)) ==> Keeps(lists, Named(result)))
      && forall i :: 0 <= i < |arguments| && IsRecognised(api, Named(arguments[i])) ==>
           Keeps(lists, Named(arguments[i]))
  {
    StaysIf(m, lists, EngineNames(api));
    hide EngineNames, Mentions, IsRecognised, Named, HasPlainNames, HasTypes, Keeps, MethodStays;
    forall d
      ensures d in Mentions(m, EngineNames(api)) <==> IsNamed(api, result, arguments, d)
    {
      MentionsAre(api, m, result, arguments, d);
    }
  }

  /** Which methods a trimmed class has: those of the original whose signatures name kept classes only. */
  lemma TrimmedSignatures(api: Api, lists: Lists, k: Class, m: Method, result: Form, arguments: seq<Form>)
    requires k in Trimmed(api, lists).classes && k.methods.Some?
    requires HasPlainNames(api) && HasTypes(m, result, arguments)
    ensures exists c ::
      && c in api.classes && c.name == k.name && c.inherits == k.inherits && c.methods.Some?
      && (m in k.methods.value <==>
            && m in c.methods.value
            && (IsRecognised(api, Named(result)) ==> Keeps(lists, Named(result)))
            && forall i :: 0 <= i < |arguments| && IsRecognised(api, Named(arguments[i])) ==>
                 Keeps(lists, Named(arguments[i])))
  {
    hide *;
    MethodsStay(api, lists, k, m);
    SignatureStays(api, lists, m, result, arguments);
  }
}
