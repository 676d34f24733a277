// __cxa_demangle_gnu3 of src/libelftc_dem_gnu3.c on mangled types.
//
// `== true` after a predicate keeps Dafny from taking it apart into its conjuncts, which is slow.
module Demangling {
  import opened Lists
  import opened TypeParser
  import opened DemangleRoundTrip

  // The builtin types with a code of one character.
  function BuiltinText(c: char): (r: Option<string>)
    ensures r.Some? ==> r.value != "" && !IsOther(c)
  {
    match c
    case 'a' => Some("signed char")
    case 'b' => Some("bool")
    case 'c' => Some("char")
    case 'd' => Some("double")
    case 'e' => Some("long double")
    case 'f' => Some("float")
    case 'g' => Some("__float128")
    case 'h' => Some("unsigned char")
    case 'i' => Some("int")
    case 'j' => Some("unsigned int")
    case 'l' => Some("long")
    case 'm' => Some("unsigned long")
    case 'n' => Some("__int128")
    case 'o' => Some("unsigned __int128")
    case 's' => Some("short")
    case 't' => Some("unsigned short")
    case 'v' => Some("void")
    case 'w' => Some("wchar_t")
    case 'x' => Some("long long")
    case 'y' => Some("unsigned long long")
    case 'z' => Some("...")
    case _ => None
  }

  // The builtin types with a code that starts with D, by the second character.
  function BuiltinDText(c: char): (r: Option<string>)
    ensures r.Some? ==> r.value != ""
  {
    match c
    case 'a' => Some("auto")
    case 'c' => Some("decltype(auto)")
    case 'd' => Some("decimal64")
    case 'e' => Some("decimal128")
    case 'f' => Some("decimal32")
    case 'h' => Some("half")
    case 'i' => Some("char32_t")
    case 'n' => Some("decltype(nullptr)")
    case 's' => Some("char16_t")
    case _ => None
  }

  function Standard(): Words {
    WordTable(
      map c: char | BuiltinText(c).Some? :: BuiltinText(c).value,
      map c: char | BuiltinDText(c).Some? :: BuiltinDText(c).value)
  }

  // A string that starts with _Z is an encoding of a function or an object; these are not modelled.
  function Demangle(w: Words, s: string): Option<string> {
    if |s| >= 2 && s[0] == '_' && s[1] == 'Z' then None
    else
      match ReadType(w, s, START)
      case None => None
      case Some(st) => Some(st.output)
  }

  lemma NotAnEncoding(w: Words, t: Type)
    requires Plain(w, t)
    ensures Mangle(t) != "" && Mangle(t)[0] != '_'
  {
    Heads(w, t, ' ');
    MangleSplits(t);
  }

  // What demangling makes of the mangled form of any type.
  lemma DemangleMeans(w: Words, t: Type)
    requires Plain(w, t)
    ensures Demangle(w, Mangle(t)) == if Taken(t) then Some(Written(t)) else None
  {
    NotAnEncoding(w, t);
    WholeReads(w, t);
  }

  // ----- Types whose text is their printed form -----

  // No name is that of the anonymous namespace, and no template's name looks like an operator,
  // except that of a template argument which is not qualified.
  predicate Faithful(t: Type)
    decreases t, 0
  {
    match t
    case Builtin(_, _) => true
    case Named(name, args) => name != ANONYMOUS && (args.Cons? ==> !IsOperator(name)) && AllFaithful(args)
    case Qualified(_, inner) => Faithful(inner)
  }

  predicate FaithfulArg(t: Type)
    decreases t, 1
  {
    if t.Named? && t.args.Cons? && IsOperator(t.name) then AllFaithful(t.args) else Faithful(t)
  }

  predicate AllFaithful(args: List<Type>)
    decreases args
  {
    match args
    case Nil => true
    case Cons(t, rest) => FaithfulArg(t) && AllFaithful(rest)
  }

  // Two texts that have different characters at some place.
  ghost predicate Clash(a: string, b: string) {
    exists k :: 0 <= k < |a| && k < |b| && a[k] != b[k] && a[..k] == b[..k]
  }

  lemma ClashAfter(a: string, b: string, c: string, d: string)
    requires Clash(a, b)
    ensures Clash(a + c, b + d)
  {
    var k :| 0 <= k < |a| && k < |b| && a[k] != b[k] && a[..k] == b[..k];
    assert (a + c)[k] == a[k] && (b + d)[k] == b[k];
    assert (a + c)[..k] == a[..k] && (b + d)[..k] == b[..k];
  }

  lemma ClashBefore(a: string, b: string, c: string)
    requires Clash(a, b)
    ensures Clash(c + a, c + b)
  {
    var k :| 0 <= k < |a| && k < |b| && a[k] != b[k] && a[..k] == b[..k];
    assert (c + a)[|c| + k] == a[k] && (c + b)[|c| + k] == b[k];
    assert (c + a)[..|c| + k] == c + a[..k] && (c + b)[..|c| + k] == c + b[..k];
  }

  lemma ClashSame(a: string, b: string, c: string, d: string)
    requires Clash(a, b) && a == c && b == d
    ensures Clash(c, d)
  {
  }

  lemma AnonymousPlain()
    ensures !IsOperator(ANONYMOUS) && !IsOperator("(anonymous namespace)")
  {
    NoOperator("(anonymous namespace)");
    NoOperator(ANONYMOUS);
  }

  lemma NoOperator(t: string)
    requires forall i :: 0 <= i < |t| - 1 ==> !(t[i] == 'o' && t[i + 1] == 'p')
    ensures !IsOperator(t)
  {
    forall i | 0 <= i <= |t| ensures !StartsWith(t[i..], "operator") {
      if i + 8 <= |t| {
        assert t[i..][..8][0] == t[i] && t[i..][..8][1] == t[i + 1];
        assert "operator"[0] == 'o' && "operator"[1] == 'p';
      }
    }
  }

  lemma OperatorShown(name: string)
    ensures LooksLikeOperator(name) <==> IsOperator(name)
  {
    AnonymousPlain();
  }

  lemma AnonymousClash(c: string, d: string)
    ensures Clash(Shown(ANONYMOUS) + c, ANONYMOUS + d)
  {
    assert (Shown(ANONYMOUS) + c)[0] != (ANONYMOUS + d)[0];
    assert (Shown(ANONYMOUS) + c)[..0] == (ANONYMOUS + d)[..0];
  }

  // The name under the qualifiers of a type that leaves arguments, and the text of the qualifiers.
  function Core(t: Type): string
    requires Left(t).Cons?
    decreases t
  {
    match t
    case Named(name, _) => name
    case Qualified(_, inner) => Core(inner)
  }

  function Marks(t: Type): string
    decreases t
  {
    match t
    case Qualified(q, inner) => Marks(inner) + QualifierText(q)
    case _ => ""
  }

  lemma NamedLeftText(name: string, args: List<Type>)
    requires args.Cons? && LooksLikeOperator(name)
    ensures Written(Named(name, args)) == name && Opens(Print(Named(name, args)), name) == true
  {
    OperatorShown(name);
    AnonymousPlain();
    assert Print(Named(name, args)) == name + ("<" + PrintAll(args) + ">");
  }

  lemma QualifiedLeftText(q: Qualifier, inner: Type, core: string, marks: string)
    requires Written(inner) == core + marks && Opens(Print(inner), core) && (marks != "" ==> marks[0] != '<')
    ensures Written(Qualified(q, inner)) == core + (marks + QualifierText(q))
    ensures marks + QualifierText(q) != "" && (marks + QualifierText(q))[0] != '<'
    ensures Opens(Print(Qualified(q, inner)), core) == true
  {
    QualifiedOpens(Print(inner), core, QualifierText(q));
    Associates(core, marks, QualifierText(q));
  }

  // The qualifiers are written before the arguments, where the printed form has them after.
  lemma {:induction false} LeftText(t: Type)
    requires Left(t).Cons?
    ensures Written(t) == Core(t) + Marks(t) && (Marks(t) != "" ==> Marks(t)[0] != '<') && (t.Qualified? ==> Marks(t) != "")
    ensures Opens(Print(t), Core(t)) == true
    decreases t
  {
    match t
    case Named(name, args) => NamedLeftText(name, args);
    case Qualified(q, inner) =>
      LeftText(inner);
      QualifiedLeftText(q, inner, Core(inner), Marks(inner));
  }

  // A text that starts with a name and its arguments.
  ghost predicate Opens(text: string, name: string) {
    |text| > |name| && text[..|name|] == name && text[|name|] == '<'
  }

  lemma QualifiedOpens(text: string, name: string, more: string)
    requires Opens(text, name)
    ensures Opens(text + more, name) == true
  {
    assert (text + more)[..|name|] == text[..|name|];
  }

  lemma QualifiedLeftClash(t: Type)
    requires Left(t).Cons? && t.Qualified?
    ensures Clash(Written(t), Print(t))
  {
    LeftText(t);
    var k := |Core(t)|;
    assert Written(t)[k] == Marks(t)[0] && Written(t)[..k] == Core(t);
    assert Written(t)[k] != Print(t)[k] && Written(t)[..k] == Print(t)[..k];
  }

  // The text of a type as an argument is its printed form exactly if it is faithful as one, and
  // otherwise the two clash.
  lemma {:induction false} ArgIsPrinted(t: Type)
    ensures if FaithfulArg(t) then Written(t) + WrittenLater(t) == Print(t) else Clash(Written(t) + WrittenLater(t), Print(t))
    decreases t
  {
    match t
    case Builtin(_, _) => assert Faithful(t);
    case Named(name, args) => NamedIsPrinted(name, args);
    case Qualified(q, inner) =>
      if Left(t).Cons? {
        QualifiedLeftClash(t);
        ClashAfter(Written(t), Print(t), WrittenLater(t), "");
        assert Print(t) + "" == Print(t);
        LeftUnfaithful(t);
      } else {
        ArgIsPrinted(inner);
        NothingLeft(inner);
        FaithfulInner(inner);
        assert Written(inner) + "" == Written(inner);
        QualifiedIsPrinted(q, inner);
      }
  }

  lemma QualifiedIsPrinted(q: Qualifier, inner: Type)
    requires WrittenLater(inner) == "" && (if Faithful(inner) then Written(inner) == Print(inner) else Clash(Written(inner), Print(inner)))
    ensures var t := Qualified(q, inner);
      if FaithfulArg(t) then Written(t) + WrittenLater(t) == Print(t) else Clash(Written(t) + WrittenLater(t), Print(t))
  {
    var t := Qualified(q, inner);
    assert FaithfulArg(t) == Faithful(t) == Faithful(inner);
    assert Written(t) + WrittenLater(t) == Written(inner) + QualifierText(q) && Print(t) == Print(inner) + QualifierText(q);
    if !Faithful(inner) {
      ClashAfter(Written(inner), Print(inner), QualifierText(q), QualifierText(q));
      ClashSame(Written(inner) + QualifierText(q), Print(inner) + QualifierText(q), Written(t) + WrittenLater(t), Print(t));
    }
  }

  lemma {:induction false} LeftUnfaithful(t: Type)
    requires Left(t).Cons?
    ensures !Faithful(t)
    decreases t
  {
    match t
    case Named(name, _) => OperatorShown(name);
    case Qualified(_, inner) => LeftUnfaithful(inner);
  }

  lemma FaithfulInner(t: Type)
    requires Left(t).Nil?
    ensures FaithfulArg(t) <==> Faithful(t)
  {
    if t.Named? {
      OperatorShown(t.name);
    }
  }

  lemma {:induction false} NamedIsPrinted(name: string, args: List<Type>)
    ensures var t := Named(name, args);
      if FaithfulArg(t) then Written(t) + WrittenLater(t) == Print(t) else Clash(Written(t) + WrittenLater(t), Print(t))
    decreases args, 1
  {
    var t := Named(name, args);
    OperatorShown(name);
    AnonymousPlain();
    NamedText(name, args);
    AllArePrinted(args);
    assert FaithfulArg(t) == (name != ANONYMOUS && AllFaithful(args));
    if name == ANONYMOUS {
      AnonymousClash(Angled(args, WrittenAll(args)), Angled(args, PrintAll(args)));
      ClashSame(Shown(name) + Angled(args, WrittenAll(args)), name + Angled(args, PrintAll(args)), Written(t) + WrittenLater(t), Print(t));
    } else if !AllFaithful(args) {
      AngledClash(name, args);
      ClashSame(name + Angled(args, WrittenAll(args)), name + Angled(args, PrintAll(args)), Written(t) + WrittenLater(t), Print(t));
    }
  }

  function Angled(args: List<Type>, text: string): string {
    if args.Nil? then "" else "<" + text + ">"
  }

  lemma NamedText(name: string, args: List<Type>)
    ensures var t := Named(name, args);
      Written(t) + WrittenLater(t) == Shown(name) + Angled(args, WrittenAll(args)) && Print(t) == name + Angled(args, PrintAll(args))
  {
  }

  lemma AngledClash(name: string, args: List<Type>)
    requires args.Cons? && Clash(WrittenAll(args), PrintAll(args))
    ensures Clash(name + Angled(args, WrittenAll(args)), name + Angled(args, PrintAll(args)))
  {
    ClashBefore(WrittenAll(args), PrintAll(args), "<");
    ClashAfter("<" + WrittenAll(args), "<" + PrintAll(args), ">", ">");
    ClashBefore(Angled(args, WrittenAll(args)), Angled(args, PrintAll(args)), name);
  }

  lemma {:induction false} AllArePrinted(args: List<Type>)
    ensures if AllFaithful(args) then WrittenAll(args) == PrintAll(args) else Clash(WrittenAll(args), PrintAll(args))
    decreases args, 0
  {
    match args
    case Nil =>
    case Cons(t, rest) =>
      ArgIsPrinted(t);
      AllArePrinted(rest);
      var more := if rest.Nil? then "" else ", " + WrittenAll(rest);
      var other := if rest.Nil? then "" else ", " + PrintAll(rest);
      assert WrittenAll(args) == (Written(t) + WrittenLater(t)) + more;
      assert PrintAll(args) == Print(t) + other;
      if !FaithfulArg(t) {
        ClashAfter(Written(t) + WrittenLater(t), Print(t), more, other);
      } else if !AllFaithful(rest) {
        ClashBefore(WrittenAll(rest), PrintAll(rest), ", ");
        ClashBefore(more, other, Print(t));
      }
  }

  lemma WrittenIsPrinted(t: Type)
    ensures Written(t) == Print(t) <==> Faithful(t)
  {
    if Left(t).Nil? {
      NothingLeft(t);
      FaithfulInner(t);
      ArgIsPrinted(t);
      assert Written(t) + "" == Written(t);
    } else {
      LeftUnfaithful(t);
      LeftText(t);
      if t.Qualified? {
        QualifiedLeftClash(t);
      }
    }
  }

  // Demangling the mangled form of a type gives exactly its printed form if and only if
  // - no reference stands directly over a reference,
  // - no list of template arguments takes more than 130 turns, where an argument takes one turn, or
  //   two if it is a template with a name that looks like an operator,
  // - no name is that of the anonymous namespace, and
  // - a template with a name that looks like an operator is itself a template argument, without
  //   qualifiers.
  lemma RoundTrip(w: Words, t: Type)
    requires Plain(w, t)
    ensures Demangle(w, Mangle(t)) == Some(Print(t)) <==> Taken(t) && Faithful(t)
  {
    DemangleMeans(w, t);
    WrittenIsPrinted(t);
  }

  lemma StandardRoundTrip(t: Type)
    requires Plain(Standard(), t)
    ensures Demangle(Standard(), Mangle(t)) == Some(Print(t)) <==> Taken(t) && Faithful(t)
  {
    RoundTrip(Standard(), t);
  }

  // ----- The types without special names -----

  // More than eight characters, with "operator" among them.
  predicate OperatorLike(name: string) {
    |name| > 8 && exists i :: 0 <= i < |name| && SpellsOperator(name, i)
  }

  predicate SpellsOperator(name: string, i: int) {
    0 <= i <= |name| - 8 && name[i..i + 8] == "operator"
  }

  lemma OperatorLikeMeans(name: string)
    ensures IsOperator(name) <==> OperatorLike(name)
  {
    forall i | 0 <= i <= |name| ensures StartsWith(name[i..], "operator") <==> SpellsOperator(name, i) {
      assert i <= |name| - 8 ==> name[i..][..8] == name[i..i + 8];
    }
    if i :| SpellsOperator(name, i) {
      assert StartsWith(name[i..], "operator");
    }
  }

  // No name looks like an operator or is that of the anonymous namespace, every template has at most
  // 130 arguments, and no reference stands directly over a reference.
  predicate Simple(t: Type)
    decreases t
  {
    match t
    case Builtin(_, _) => true
    case Named(name, args) => name != "_GLOBAL__N_1" && !OperatorLike(name) && Length(args) <= 130 && AllSimple(args)
    case Qualified(q, inner) => !OverReference(q, inner) && Simple(inner)
  }

  predicate AllSimple(args: List<Type>)
    decreases args
  {
    match args
    case Nil => true
    case Cons(t, rest) => Simple(t) && AllSimple(rest)
  }

  lemma {:induction false} SimpleTaken(t: Type)
    requires Simple(t)
    ensures Taken(t) && LeftTaken(t) && Left(t).Nil? && Faithful(t)
    decreases t
  {
    match t
    case Builtin(_, _) =>
    case Named(name, args) =>
      OperatorLikeMeans(name);
      OperatorShown(name);
      SimpleArgs(args);
    case Qualified(_, inner) => SimpleTaken(inner);
  }

  lemma {:induction false} SimpleArgs(args: List<Type>)
    requires AllSimple(args)
    ensures AllTaken(args) && AllFaithful(args) && Turns(args) == Length(args)
    decreases args
  {
    match args
    case Nil =>
    case Cons(t, rest) =>
      SimpleTaken(t);
      FaithfulInner(t);
      SimpleArgs(rest);
  }

  lemma SimpleRoundTrip(w: Words, t: Type)
    requires Plain(w, t) && Simple(t)
    ensures Demangle(w, Mangle(t)) == Some(Print(t))
  {
    SimpleTaken(t);
    RoundTrip(w, t);
  }

  // A template with a name that looks like an operator, on its own: it loses its arguments.
  lemma OperatorAlone(w: Words, name: string, args: List<Type>)
    requires Plain(w, Named(name, args)) && OperatorLike(name) && args.Cons?
    ensures Demangle(w, Mangle(Named(name, args))) == Some(name) && name != Print(Named(name, args))
  {
    var t := Named(name, args);
    OperatorLikeMeans(name);
    OperatorShown(name);
    AnonymousPlain();
    DemangleMeans(w, t);
    assert Taken(t) && Written(t) == Shown(name) == name;
    assert Print(t) == name + ("<" + PrintAll(args) + ">");
  }

  // As a template argument it keeps them.
  lemma OperatorWithin(w: Words, outer: string, name: string, arg: Type)
    requires Plain(w, arg) && Simple(arg) && 0 < |name| <= LONG_MAX && !IsDigit(name[0]) && OperatorLike(name)
    requires 0 < |outer| <= LONG_MAX && !IsDigit(outer[0]) && !OperatorLike(outer) && outer != "_GLOBAL__N_1"
    ensures var t := Named(outer, Cons(Named(name, Cons(arg, Nil)), Nil)); Demangle(w, Mangle(t)) == Some(Print(t))
  {
    var none: List<Type> := Nil;
    var inner := Named(name, Cons(arg, none));
    OperatorLikeMeans(name);
    OperatorLikeMeans(outer);
    OperatorShown(name);
    OperatorShown(outer);
    SimpleTaken(arg);
    FaithfulInner(arg);
    assert Turns(none) == 0 && AllTaken(none) && AllFaithful(none);
    assert Turns(Cons(arg, none)) == 1 && AllTaken(Cons(arg, none)) && AllFaithful(Cons(arg, none));
    assert Left(inner) == Cons(arg, none) && LeftTaken(inner) && Taken(inner) && FaithfulArg(inner);
    assert Turns(Cons(inner, none)) == 2;
    assert AllTaken(Cons(inner, none)) && AllFaithful(Cons(inner, none));
    assert AllPlain(w, none);
    assert AllPlain(w, Cons(arg, none)) && AllPlain(w, Cons(inner, none));
    RoundTrip(w, Named(outer, Cons(inner, none)));
  }

  // ----- Codes and words -----

  // The builtin types of section 5.1.5 of the Itanium C++ ABI that the parser knows, by their codes.
  predicate BuiltinCode(code: string, text: string) {
    || (code == "a" && text == "signed char") || (code == "b" && text == "bool") || (code == "c" && text == "char")
    || (code == "d" && text == "double") || (code == "e" && text == "long double") || (code == "f" && text == "float")
    || (code == "g" && text == "__float128") || (code == "h" && text == "unsigned char") || (code == "i" && text == "int")
    || (code == "j" && text == "unsigned int") || (code == "l" && text == "long") || (code == "m" && text == "unsigned long")
    || (code == "n" && text == "__int128") || (code == "o" && text == "unsigned __int128") || (code == "s" && text == "short")
    || (code == "t" && text == "unsigned short") || (code == "v" && text == "void") || (code == "w" && text == "wchar_t")
    || (code == "x" && text == "long long") || (code == "y" && text == "unsigned long long") || (code == "z" && text == "...")
  }

  predicate BuiltinDCode(code: string, text: string) {
    || (code == "Da" && text == "auto") || (code == "Dc" && text == "decltype(auto)") || (code == "Dd" && text == "decimal64")
    || (code == "De" && text == "decimal128") || (code == "Df" && text == "decimal32") || (code == "Dh" && text == "half")
    || (code == "Di" && text == "char32_t") || (code == "Dn" && text == "decltype(nullptr)") || (code == "Ds" && text == "char16_t")
  }

  // What qualifiers add to a type, by their codes.
  predicate QualifierCode(c: char, suffix: string) {
    || (c == 'P' && suffix == "*") || (c == 'R' && suffix == "&") || (c == 'O' && suffix == "&&")
    || (c == 'C' && suffix == " complex") || (c == 'G' && suffix == " imaginary") || (c == 'r' && suffix == " restrict")
    || (c == 'V' && suffix == " volatile") || (c == 'K' && suffix == " const")
  }

  lemma BuiltinStands(code: string, text: string)
    requires BuiltinCode(code, text)
    ensures Stands(Standard(), code, text)
  {
    assert BuiltinText(code[0]) == Some(text);
  }

  lemma BuiltinDStands(code: string, text: string)
    requires BuiltinDCode(code, text)
    ensures Stands(Standard(), code, text)
  {
    assert BuiltinDText(code[1]) == Some(text);
  }

  // A code is demangled to its words.
  lemma BuiltinsRead(code: string, text: string)
    requires BuiltinCode(code, text) || BuiltinDCode(code, text)
    ensures Demangle(Standard(), code) == Some(text)
  {
    if BuiltinCode(code, text) { BuiltinStands(code, text); } else { BuiltinDStands(code, text); }
    SimpleRoundTrip(Standard(), Builtin(code, text));
  }

  // A qualifier in front of a type adds its words behind it.
  lemma QualifiersRead(w: Words, c: char, suffix: string, t: Type)
    requires QualifierCode(c, suffix) && Plain(w, t) && Simple(t) && (c == 'R' || c == 'O' ==> !(t.Qualified? && IsReference(t.q)))
    ensures Demangle(w, [c] + Mangle(t)) == Some(Print(t) + suffix)
  {
    var q := QualifierOf(c).value;
    assert Code(q) == c && QualifierText(q) == suffix;
    SimpleRoundTrip(w, Qualified(q, t));
  }
}
