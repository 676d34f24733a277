// Mangled and printed forms of types (section 5.1 of the Itanium C++ ABI), and what the type parser
// of src/libelftc_dem_gnu3.c makes of a mangled form.
//
// `== true` after a predicate keeps Dafny from taking it apart into its conjuncts, which is slow.
module DemangleRoundTrip {
  import opened Lists
  import opened TypeParser

  datatype Type =
    | Builtin(code: string, text: string)          // a code of one or two characters and what it stands for
    | Named(name: string, args: List<Type>)        // a source name, with or without template arguments
    | Qualified(q: Qualifier, inner: Type)

  function Code(q: Qualifier): char {
    match q
    case Pointer => 'P'
    case Reference => 'R'
    case RvalueReference => 'O'
    case Complex => 'C'
    case Imaginary => 'G'
    case Restrict => 'r'
    case Volatile => 'V'
    case Const => 'K'
  }

  function Decimal(n: nat): (r: string)
    ensures r != "" && IsDigit(r[0])
  {
    if n < 10 then ['0' + n as char] else Decimal(n / 10) + ['0' + (n % 10) as char]
  }

  function Mangle(t: Type): string
    decreases t
  {
    match t
    case Builtin(code, _) => code
    case Named(name, args) => Decimal(|name|) + name + if args.Nil? then "" else "I" + MangleAll(args) + "E"
    case Qualified(q, inner) => [Code(q)] + Mangle(inner)
  }

  function MangleAll(args: List<Type>): string
    decreases args
  {
    match args
    case Nil => ""
    case Cons(t, rest) => Mangle(t) + MangleAll(rest)
  }

  function Print(t: Type): string
    decreases t
  {
    match t
    case Builtin(_, text) => text
    case Named(name, args) => name + if args.Nil? then "" else "<" + PrintAll(args) + ">"
    case Qualified(q, inner) => Print(inner) + QualifierText(q)
  }

  function PrintAll(args: List<Type>): string
    decreases args
  {
    match args
    case Nil => ""
    case Cons(t, rest) => Print(t) + if rest.Nil? then "" else ", " + PrintAll(rest)
  }

  predicate Stands(w: Words, code: string, text: string) {
    || (|code| == 1 && code[0] in w.one && w.one[code[0]] == text)
    || (|code| == 2 && code[0] == 'D' && code[1] in w.two && w.two[code[1]] == text)
  }

  // Types with codes that stand for something, and names that are not empty and do not start with a
  // digit.
  predicate Plain(w: Words, t: Type)
    decreases t
  {
    match t
    case Builtin(code, text) => Stands(w, code, text)
    case Named(name, args) => 0 < |name| <= LONG_MAX && !IsDigit(name[0]) && AllPlain(w, args)
    case Qualified(_, inner) => Plain(w, inner)
  }

  predicate AllPlain(w: Words, args: List<Type>)
    decreases args
  {
    match args
    case Nil => true
    case Cons(t, rest) => Plain(w, t) && AllPlain(w, rest)
  }

  // ----- What the parser makes of a type -----

  // The name of the anonymous namespace is replaced.
  function Shown(name: string): string {
    if name == ANONYMOUS then "(anonymous namespace)" else name
  }

  predicate LooksLikeOperator(name: string) {
    IsOperator(Shown(name))
  }

  // The template arguments that are not read with a type: those of a name that looks like an
  // operator.
  function Left(t: Type): List<Type>
    decreases t
  {
    match t
    case Builtin(_, _) => Nil
    case Named(name, args) => if LooksLikeOperator(name) then args else Nil
    case Qualified(_, inner) => Left(inner)
  }

  function Enclosed(args: List<Type>): string {
    if args.Nil? then "" else "I" + MangleAll(args) + "E"
  }

  // The part of the mangled form that is read with a type.
  function Front(t: Type): string
    decreases t
  {
    match t
    case Builtin(code, _) => code
    case Named(name, args) => Decimal(|name|) + name + if LooksLikeOperator(name) then "" else Enclosed(args)
    case Qualified(q, inner) => [Code(q)] + Front(inner)
  }

  // What is written for that part, and for the arguments left, if they are read later.
  function Written(t: Type): string
    decreases t
  {
    match t
    case Builtin(_, text) => text
    case Named(name, args) => Shown(name) + if args.Nil? || LooksLikeOperator(name) then "" else "<" + WrittenAll(args) + ">"
    case Qualified(q, inner) => Written(inner) + QualifierText(q)
  }

  function WrittenLater(t: Type): string
    decreases t
  {
    match t
    case Builtin(_, _) => ""
    case Named(name, args) => if args.Nil? || !LooksLikeOperator(name) then "" else "<" + WrittenAll(args) + ">"
    case Qualified(_, inner) => WrittenLater(inner)
  }

  // Within a list the arguments left are read next, as if they were an argument of their own.
  function WrittenAll(args: List<Type>): string
    decreases args
  {
    match args
    case Nil => ""
    case Cons(t, rest) => Written(t) + WrittenLater(t) + if rest.Nil? then "" else ", " + WrittenAll(rest)
  }

  // The turns of the loop over a list.
  function Turns(args: List<Type>): nat
    decreases args
  {
    match args
    case Nil => 0
    case Cons(t, rest) => (if Left(t).Nil? then 1 else 2) + Turns(rest)
  }

  const MAX_TURNS := 130

  predicate OverReference(q: Qualifier, inner: Type) {
    IsReference(q) && inner.Qualified? && IsReference(inner.q)
  }

  // The parser takes what it reads with a type: no reference stands directly over a reference, and
  // no list of template arguments takes more than 130 turns.
  predicate Taken(t: Type)
    decreases t
  {
    match t
    case Builtin(_, _) => true
    case Named(name, args) => LooksLikeOperator(name) || (Turns(args) <= MAX_TURNS && AllTaken(args))
    case Qualified(q, inner) => !OverReference(q, inner) && Taken(inner)
  }

  // It takes the arguments left.
  predicate LeftTaken(t: Type)
    decreases t
  {
    match t
    case Builtin(_, _) => true
    case Named(name, args) => LooksLikeOperator(name) ==> Turns(args) <= MAX_TURNS && AllTaken(args)
    case Qualified(_, inner) => LeftTaken(inner)
  }

  predicate AllTaken(args: List<Type>)
    decreases args
  {
    match args
    case Nil => true
    case Cons(t, rest) => Taken(t) && LeftTaken(t) && AllTaken(rest)
  }

  // ----- Text and output -----

  lemma CharAt(s: string, cur: nat, t: string, k: nat)
    requires StandsAt(s, cur, t) == true && k < |t|
    ensures cur + k < |s| && s[cur + k] == t[k]
  {
  }

  // The output has grown by this text.
  ghost predicate Grows(st: State, st': State, text: string) {
    st'.output == st.output + text
  }

  lemma GrowsThrough(a: State, b: State, c: State, t: string, u: string)
    requires Grows(a, b, t) && Grows(b, c, u)
    ensures Grows(a, c, t + u)
  {
    assert (a.output + t) + u == a.output + (t + u);
  }

  // What the qualifiers v read so far add to a type, innermost first.
  function Suffix(v: seq<Qualifier>): string {
    if v == [] then "" else QualifierText(v[|v| - 1]) + Suffix(v[..|v| - 1])
  }

  lemma {:induction false} PushesSuffix(st: State, v: seq<Qualifier>, idx: nat, t: string)
    requires idx <= |v|
    ensures Grows(st, PushQualifiers(st, v, idx, t), Suffix(v[..idx]))
    decreases idx
  {
    if idx == 0 {
    } else {
      var q := v[idx - 1];
      var t' := t + QualifierText(q);
      var pushed := PushStr(st, QualifierText(q)).value;
      var st' := if IsCv(q) && idx > 1 && IsCv(v[idx - 2]) then pushed else PushSubst(pushed, t').value;
      PushesSuffix(st', v, idx - 1, t');
      assert v[..idx][..idx - 1] == v[..idx - 1];
      GrowsThrough(st, st', PushQualifiers(st', v, idx - 1, t'), QualifierText(q), Suffix(v[..idx - 1]));
    }
  }

  lemma FinishGrows(st: State, start: nat, v: seq<Qualifier>, builtin: bool)
    requires start <= |st.output|
    ensures var r := Finish(st, start, v, builtin);
      Grows(st, r, Suffix(v)) && r.cur == st.cur && r.refQualifier == st.refQualifier && r.templates == st.templates
  {
    var t := st.output[start..];
    var candidate := if builtin || Finds(st.subst, t) then st else st.(subst := st.subst + [t]);
    assert v[..|v|] == v;
    PushKeeps(candidate, v, |v|, t);
    PushesSuffix(candidate, v, |v|, t);
  }

  // ----- Numbers and names -----

  lemma {:induction false} DecimalReads(s: string, cur: nat, n: nat)
    requires StandsAt(s, cur, Decimal(n)) == true
    ensures ReadDecimal(s, cur, 0) == ReadDecimal(s, cur + |Decimal(n)|, n)
    decreases n
  {
    if n >= 10 {
      var last := ['0' + (n % 10) as char];
      StandsSplit(s, cur, Decimal(n / 10), last);
      DecimalReads(s, cur, n / 10);
      assert s[cur + |Decimal(n / 10)|] == last[0];
    } else {
      assert s[cur] == Decimal(n)[0];
    }
  }

  lemma NumberReads(s: string, cur: nat, n: nat)
    requires StandsAt(s, cur, Decimal(n)) == true && n <= LONG_MAX && !IsDigit(Peek(s, cur + |Decimal(n)|))
    ensures ReadNumber(s, cur) == Some((n, cur + |Decimal(n)|))
  {
    assert s[cur] == Decimal(n)[0];
    DecimalReads(s, cur, n);
  }

  lemma SliceIs(s: string, cur: nat, t: string)
    requires StandsAt(s, cur, t) == true
    ensures s[cur..cur + |t|] == t
  {
  }

  lemma SnameOf(s: string, st: State, name: string, start: nat)
    requires 0 < |name| && ReadNumber(s, st.cur) == Some((|name|, start)) && StandsAt(s, start, name) == true
    ensures ReadSname(s, st) == Some(PushStr(st, Shown(name)).value.(cur := start + |name|))
  {
    SliceIs(s, start, name);
  }

  lemma SnameReads(s: string, st: State, name: string)
    requires 0 < |name| <= LONG_MAX && !IsDigit(name[0]) && StandsAt(s, st.cur, Decimal(|name|) + name) == true
    ensures ReadSname(s, st) == Some(PushStr(st, Shown(name)).value.(cur := st.cur + |Decimal(|name|)| + |name|))
  {
    var digits := Decimal(|name|);
    StandsSplit(s, st.cur, digits, name);
    assert s[st.cur + |digits|] == name[0];
    NumberReads(s, st.cur, |name|);
    SnameOf(s, st, name, st.cur + |digits|);
  }

  // ----- Types -----

  // The parser has read a text up to a position and has left no reference mark.
  ghost predicate Reads(before: string, r: Option<State>, next: nat, text: string, templates: int) {
    && r.Some? && r.value.cur == next && r.value.output == before + text
    && !r.value.refQualifier && r.value.templates == templates
  }

  // Whether the parser takes the type after a reference or elsewhere.
  predicate Takes(t: Type, afterReference: bool) {
    Taken(t) && !(afterReference && t.Qualified? && IsReference(t.q))
  }

  // The parser reads the text if it takes the type, and fails otherwise.
  ghost predicate Outcome(before: string, r: Option<State>, takes: bool, next: nat, text: string, templates: int) {
    if takes then Reads(before, r, next, text, templates) else r.None?
  }

  // ----- One step of each parser function -----

  lemma AgainWord(w: Words, s: string, st: State, start: nat, v: seq<Qualifier>, text: string, length: nat)
    requires start <= |st.output| && st.cur < |s| && s[st.cur] != 'R' && s[st.cur] != 'O' && s[st.cur] != 'E'
    requires Classify(w, s[st.cur], Peek(s, st.cur + 1)) == Word(text, length) && st.cur + length <= |s|
    ensures var read := PushStr(st.(refQualifier := false), text).value.(cur := st.cur + length);
      Again(w, s, st, start, v) == Some(Finish(read, start, v, true))
  {
    assert Again(w, s, st, start, v) == Body(w, s, st.(refQualifier := false), start, v);
  }

  lemma AgainName(w: Words, s: string, st: State, start: nat, v: seq<Qualifier>)
    requires start <= |st.output| && st.cur < |s| && s[st.cur] != 'R' && s[st.cur] != 'O' && s[st.cur] != 'E'
    requires Classify(w, s[st.cur], Peek(s, st.cur + 1)) == Name
    ensures var name := ReadName(w, s, st.(refQualifier := false));
      Again(w, s, st, start, v) == match name case None => None case Some(read) => Some(Finish(read, start, v, false))
  {
    assert Again(w, s, st, start, v) == Body(w, s, st.(refQualifier := false), start, v);
  }

  lemma AgainQualifier(w: Words, s: string, st: State, start: nat, v: seq<Qualifier>, q: Qualifier)
    requires start <= |st.output| && st.cur < |s| && (s[st.cur] == 'R' || s[st.cur] == 'O' <==> IsReference(q)) && s[st.cur] != 'E'
    requires Classify(w, s[st.cur], Peek(s, st.cur + 1)) == Prefix(q)
    ensures Again(w, s, st, start, v) ==
      if IsReference(q) && st.refQualifier then None
      else Again(w, s, st.(cur := st.cur + 1, refQualifier := IsReference(q)), start, v + [q])
  {
  }

  lemma NameStep(w: Words, s: string, st: State, named: State, name: string)
    requires IsDigit(Peek(s, st.cur)) && ReadSname(s, st) == Some(named) && name != ""
    requires named.output[|st.output|..] == name
    ensures IsOperator(name) ==> ReadName(w, s, st) == Some(named)
    ensures !IsOperator(name) && Peek(s, named.cur) != 'I' ==> ReadName(w, s, st) == PushSubst(named, name)
    ensures !IsOperator(name) && Peek(s, named.cur) == 'I' ==>
      ReadName(w, s, st) == match ReadTmplArgs(w, s, PushSubst(named, name).value)
        case None => None
        case Some(whole) => PushSubst(whole, whole.output[|st.output|..])
  {
  }

  function Kept(st: State, arg: string): State {
    if Finds(st.tmpl, arg) then st else st.(tmpl := st.tmpl + [arg])
  }

  lemma ArgsStep(w: Words, s: string, st: State, limit: nat)
    requires Peek(s, st.cur) != 'L' && Peek(s, st.cur) != 'X'
    ensures ReadType(w, s, st).None? ==> ReadArgs(w, s, st, limit).None?
    ensures ReadType(w, s, st).Some? ==>
      var read := ReadType(w, s, st).value;
      var kept := Kept(read, read.output[|st.output|..]);
      ReadArgs(w, s, st, limit) ==
        if Peek(s, read.cur) == 'E' then
          (if read.templates == 0 then None
           else Some(PushStr(kept.(cur := kept.cur + 1), ">").value.(isTmpl := true, templates := kept.templates - 1)))
        else if limit > TRY_LIMIT then None
        else ReadArgs(w, s, if Peek(s, read.cur) == 'I' then kept else PushStr(kept, ", ").value, limit + 1)
  {
  }

  // ----- Types -----

  lemma FinishReads(st: State, read: State, start: nat, v: seq<Qualifier>, builtin: bool, text: string, r: Option<State>)
    requires start <= |read.output| && Grows(st, read, text) == true && !read.refQualifier
    requires r == Some(Finish(read, start, v, builtin))
    ensures Reads(st.output, r, read.cur, text + Suffix(v), read.templates) == true
  {
    FinishGrows(read, start, v, builtin);
    GrowsThrough(st, read, r.value, text, Suffix(v));
  }

  // What the parser makes of the first characters of a type.
  lemma Heads(w: Words, t: Type, d: char)
    requires Plain(w, t)
    ensures var m := Front(t);
      && m != "" && m[0] != 'I' && m[0] != 'E' && m[0] != 'L' && m[0] != 'X'
      && (!t.Qualified? ==> m[0] != 'R' && m[0] != 'O')
      && match t
        case Builtin(_, text) => text != "" && (|m| == 1 || |m| == 2) && Classify(w, m[0], if |m| == 1 then d else m[1]) == Word(text, |m|)
        case Named(_, _) => IsDigit(m[0]) && Classify(w, m[0], d) == Name
        case Qualified(q, inner) =>
          && m == [Code(q)] + Front(inner) && Classify(w, m[0], d) == Prefix(q)
          && (m[0] == 'R' || m[0] == 'O' <==> IsReference(q))
  {
  }

  lemma {:induction false} MangleSplits(t: Type)
    ensures Mangle(t) == Front(t) + Enclosed(Left(t))
  {
    if t.Qualified? {
      MangleSplits(t.inner);
    }
  }

  lemma WordOutcome(st: State, start: nat, v: seq<Qualifier>, text: string, at: nat, r: Option<State>)
    requires text != "" && start == |st.output|
    requires r == Some(Finish(PushStr(st.(refQualifier := false), text).value.(cur := at), start, v, true))
    ensures Reads(st.output, r, at, text + Suffix(v), st.templates) == true
  {
    var clear := st.(refQualifier := false);
    FinishReads(clear, PushStr(clear, text).value.(cur := at), start, v, true, text, r);
  }

  lemma BuiltinStep(w: Words, code: string, text: string, s: string, st: State, start: nat, v: seq<Qualifier>)
    requires Stands(w, code, text) && StandsAt(s, st.cur, code) == true && start == |st.output|
    ensures text != "" && st.cur + |code| <= |s|
    ensures Again(w, s, st, start, v) == Some(Finish(PushStr(st.(refQualifier := false), text).value.(cur := st.cur + |code|), start, v, true))
  {
    Heads(w, Builtin(code, text), Peek(s, st.cur + 1));
    CharAt(s, st.cur, code, 0);
    CharAt(s, st.cur, code, |code| - 1);
    AgainWord(w, s, st, start, v, text, |code|);
  }

  lemma BuiltinReads(w: Words, t: Type, s: string, st: State, start: nat, v: seq<Qualifier>, at: nat)
    requires t.Builtin? && Plain(w, t) && StandsAt(s, st.cur, Front(t)) == true && start == |st.output|
    requires at == st.cur + |Front(t)|
    ensures Reads(st.output, Again(w, s, st, start, v), at, Written(t) + Suffix(v), st.templates) == true
  {
    BuiltinStep(w, t.code, t.text, s, st, start, v);
    WordOutcome(st, start, v, t.text, at, Again(w, s, st, start, v));
  }

  lemma SuffixSnoc(v: seq<Qualifier>, q: Qualifier)
    ensures Suffix(v + [q]) == QualifierText(q) + Suffix(v)
  {
    assert (v + [q])[..|v|] == v;
  }

  lemma QualifiedText(q: Qualifier, inner: Type, v: seq<Qualifier>)
    ensures Written(Qualified(q, inner)) + Suffix(v) == Written(inner) + Suffix(v + [q])
    ensures |Front(Qualified(q, inner))| == 1 + |Front(inner)|
  {
    SuffixSnoc(v, q);
    Associates(Written(inner), QualifierText(q), Suffix(v));
  }

  lemma Associates(a: string, b: string, c: string)
    ensures (a + b) + c == a + (b + c)
  {
  }

  // A type, unless what follows could be taken for its template arguments.
  lemma {:induction false} TypeReads(w: Words, t: Type, s: string, st: State, start: nat, v: seq<Qualifier>, at: nat)
    requires Plain(w, t) && StandsAt(s, st.cur, Front(t)) == true && start == |st.output|
    requires at == st.cur + |Front(t)| && (Peek(s, at) != 'I' || Left(t).Cons?)
    ensures Outcome(st.output, Again(w, s, st, start, v), Takes(t, st.refQualifier), at, Written(t) + Suffix(v), st.templates) == true
    decreases t, 1
  {
    match t
    case Builtin(_, _) => BuiltinReads(w, t, s, st, start, v, at);
    case Named(_, _) => NamedReads(w, t, s, st, start, v, at);
    case Qualified(q, inner) =>
      QualifierFront(w, q, inner, s, st, start, v);
      QualifiedText(q, inner, v);
      QualifiedReads(w, q, inner, s, st, start, v, at, Written(t) + Suffix(v));
  }

  lemma QualifierFront(w: Words, q: Qualifier, inner: Type, s: string, st: State, start: nat, v: seq<Qualifier>)
    requires Plain(w, inner) && StandsAt(s, st.cur, Front(Qualified(q, inner))) == true && start == |st.output|
    ensures st.cur < |s| && StandsAt(s, st.cur + 1, Front(inner)) == true
    ensures Again(w, s, st, start, v) ==
      if IsReference(q) && st.refQualifier then None
      else Again(w, s, st.(cur := st.cur + 1, refQualifier := IsReference(q)), start, v + [q])
  {
    Heads(w, Qualified(q, inner), Peek(s, st.cur + 1));
    StandsSplit(s, st.cur, [Code(q)], Front(inner));
    CharAt(s, st.cur, Front(Qualified(q, inner)), 0);
    AgainQualifier(w, s, st, start, v, q);
  }

  lemma QualifiedOutcome(q: Qualifier, inner: Type, afterReference: bool, before: string, r: Option<State>, rest: Option<State>,
      at: nat, text: string, templates: int)
    requires r == if IsReference(q) && afterReference then None else rest
    requires !(IsReference(q) && afterReference) ==>
      Outcome(before, rest, Takes(inner, IsReference(q)), at, text, templates) == true
    ensures Outcome(before, r, Takes(Qualified(q, inner), afterReference), at, text, templates) == true
  {
  }

  lemma {:induction false} QualifiedReads(w: Words, q: Qualifier, inner: Type, s: string, st: State, start: nat, v: seq<Qualifier>, at: nat, text: string)
    requires Plain(w, inner) && StandsAt(s, st.cur + 1, Front(inner)) == true && start == |st.output| && st.cur < |s|
    requires Again(w, s, st, start, v) ==
      if IsReference(q) && st.refQualifier then None
      else Again(w, s, st.(cur := st.cur + 1, refQualifier := IsReference(q)), start, v + [q])
    requires at == st.cur + 1 + |Front(inner)| && (Peek(s, at) != 'I' || Left(inner).Cons?) && text == Written(inner) + Suffix(v + [q])
    ensures Outcome(st.output, Again(w, s, st, start, v), Takes(Qualified(q, inner), st.refQualifier), at, text, st.templates) == true
    decreases inner, 2
  {
    var next := st.(cur := st.cur + 1, refQualifier := IsReference(q));
    TypeReads(w, inner, s, next, start, v + [q], at);
    QualifiedOutcome(q, inner, st.refQualifier, st.output, Again(w, s, st, start, v), Again(w, s, next, start, v + [q]),
      at, text, st.templates);
  }

  lemma {:induction false} NamedReads(w: Words, t: Type, s: string, st: State, start: nat, v: seq<Qualifier>, at: nat)
    requires t.Named? && Plain(w, t) && StandsAt(s, st.cur, Front(t)) == true && start == |st.output|
    requires at == st.cur + |Front(t)| && (Peek(s, at) != 'I' || Left(t).Cons?)
    ensures Outcome(st.output, Again(w, s, st, start, v), Taken(t), at, Written(t) + Suffix(v), st.templates) == true
    decreases t, 0
  {
    var clear := st.(refQualifier := false);
    Heads(w, t, Peek(s, st.cur + 1));
    CharAt(s, st.cur, Front(t), 0);
    NameReads(w, t, s, clear, at);
    AgainName(w, s, st, start, v);
    var name := ReadName(w, s, clear);
    if Taken(t) {
      FinishReads(clear, name.value, start, v, false, Written(t), Again(w, s, st, start, v));
    }
  }

  // What stands at the front of a name, and the name read.
  function AfterName(t: Type, st: State): State
    requires t.Named? && t.name != ""
  {
    PushStr(st, Shown(t.name)).value.(cur := st.cur + |Decimal(|t.name|)| + |t.name|)
  }

  lemma NameFront(w: Words, t: Type, s: string, st: State)
    requires t.Named? && Plain(w, t) && StandsAt(s, st.cur, Front(t)) == true
    ensures IsDigit(Peek(s, st.cur)) && ReadSname(s, st) == Some(AfterName(t, st))
    ensures var named := AfterName(t, st);
      && named.output == st.output + Shown(t.name)
      && (t.args.Nil? || LooksLikeOperator(t.name) ==> |Front(t)| == named.cur - st.cur)
      && (t.args.Cons? && !LooksLikeOperator(t.name) ==>
          && StandsAt(s, named.cur, "I" + MangleAll(t.args) + "E") == true && Peek(s, named.cur) == 'I'
          && |Front(t)| == named.cur - st.cur + |MangleAll(t.args)| + 2)
  {
    var front := Decimal(|t.name|) + t.name;
    var back := if LooksLikeOperator(t.name) then "" else Enclosed(t.args);
    assert Front(t) == front + back;
    assert s[st.cur] == Front(t)[0] == front[0];
    StandsSplit(s, st.cur, front, back);
    SnameReads(s, st, t.name);
    if back != "" {
      assert s[st.cur + |front|] == back[0];
    }
  }

  lemma {:induction false} NameReads(w: Words, t: Type, s: string, st: State, at: nat)
    requires t.Named? && Plain(w, t) && StandsAt(s, st.cur, Front(t)) == true && !st.refQualifier
    requires at == st.cur + |Front(t)| && (Peek(s, at) != 'I' || Left(t).Cons?)
    ensures Outcome(st.output, ReadName(w, s, st), Taken(t), at, Written(t), st.templates) == true
    decreases t.args, 5
  {
    if t.args.Nil? || LooksLikeOperator(t.name) {
      PlainNameReads(w, t, s, st, at);
    } else {
      TemplateReads(w, t, s, st, at);
    }
  }

  lemma PlainNameReads(w: Words, t: Type, s: string, st: State, at: nat)
    requires t.Named? && (t.args.Nil? || LooksLikeOperator(t.name))
    requires Plain(w, t) && StandsAt(s, st.cur, Front(t)) == true && !st.refQualifier
    requires at == st.cur + |Front(t)| && (Peek(s, at) != 'I' || Left(t).Cons?)
    ensures Outcome(st.output, ReadName(w, s, st), Taken(t), at, Written(t), st.templates) == true
  {
    NameFront(w, t, s, st);
    NameStep(w, s, st, AfterName(t, st), Shown(t.name));
    NameOutcome(t, st, ReadName(w, s, st), at);
  }

  lemma NameOutcome(t: Type, st: State, r: Option<State>, at: nat)
    requires t.Named? && t.name != "" && (t.args.Nil? || LooksLikeOperator(t.name)) && !st.refQualifier
    requires at == AfterName(t, st).cur && (r == Some(AfterName(t, st)) || r == PushSubst(AfterName(t, st), Shown(t.name)))
    ensures Outcome(st.output, r, Taken(t), at, Written(t), st.templates) == true
  {
    assert Written(t) == Shown(t.name);
    assert t.args.Nil? ==> Turns(t.args) == 0 && AllTaken(t.args);
  }

  lemma {:induction false} TemplateReads(w: Words, t: Type, s: string, st: State, at: nat)
    requires t.Named? && t.args.Cons? && !LooksLikeOperator(t.name)
    requires Plain(w, t) && StandsAt(s, st.cur, Front(t)) == true && !st.refQualifier
    requires at == st.cur + |Front(t)|
    ensures Outcome(st.output, ReadName(w, s, st), Taken(t), at, Written(t), st.templates) == true
    decreases t.args, 4
  {
    NameFront(w, t, s, st);
    var named := AfterName(t, st);
    NameStep(w, s, st, named, Shown(t.name));
    var candidate := PushSubst(named, Shown(t.name)).value;
    TmplReads(w, t.args, s, candidate, at);
    WholeName(t, st, candidate, ReadTmplArgs(w, s, candidate), ReadName(w, s, st), at);
  }

  // A name together with its template arguments.
  lemma WholeName(t: Type, st: State, candidate: State, args: Option<State>, r: Option<State>, at: nat)
    requires t.Named? && t.args.Cons? && !LooksLikeOperator(t.name) && candidate.output == st.output + Shown(t.name)
    requires Outcome(candidate.output, args, Turns(t.args) <= MAX_TURNS && AllTaken(t.args), at,
      "<" + WrittenAll(t.args) + ">", candidate.templates) == true
    requires candidate.templates == st.templates
    requires args.None? ==> r.None?
    requires args.Some? && |args.value.output| >= |st.output| ==> r == PushSubst(args.value, args.value.output[|st.output|..])
    ensures Outcome(st.output, r, Taken(t), at, Written(t), st.templates) == true
  {
    assert Written(t) == Shown(t.name) + ("<" + WrittenAll(t.args) + ">");
  }

  lemma {:induction false} TmplReads(w: Words, args: List<Type>, s: string, st: State, at: nat)
    requires args.Cons? && AllPlain(w, args) && StandsAt(s, st.cur, "I" + MangleAll(args) + "E") == true && !st.refQualifier
    requires at == st.cur + |MangleAll(args)| + 2
    ensures Outcome(st.output, ReadTmplArgs(w, s, st), Turns(args) <= MAX_TURNS && AllTaken(args), at,
      "<" + WrittenAll(args) + ">", st.templates) == true
    decreases args, 3
  {
    var begun := PushStr(st.(cur := st.cur + 1, templates := st.templates + 1), "<").value;
    assert "I" + MangleAll(args) + "E" == "I" + (MangleAll(args) + "E");
    StandsSplit(s, st.cur, "I", MangleAll(args) + "E");
    ArgsRead(w, args, s, begun, 0, at);
    var r := ReadArgs(w, s, begun, 0);
    assert ReadTmplArgs(w, s, st) == r;
    Restates(begun.output, r, AllTaken(args) && 0 + Turns(args) <= MAX_TURNS, at, WrittenAll(args) + ">", st.templates,
      Turns(args) <= MAX_TURNS && AllTaken(args), at, WrittenAll(args) + ">");
    Prepends(st.output, "<", r, Turns(args) <= MAX_TURNS && AllTaken(args), at, WrittenAll(args) + ">",
      "<" + WrittenAll(args) + ">", st.templates);
  }

  // ----- Argument lists -----

  // The arguments that a type left, read as if they were an argument of their own.
  lemma {:induction false} LeftReads(w: Words, t: Type, s: string, st: State, at: nat)
    requires Plain(w, t) && Left(t).Cons? && StandsAt(s, st.cur, Enclosed(Left(t))) == true && !st.refQualifier
    requires at == st.cur + |Enclosed(Left(t))|
    ensures Outcome(st.output, ReadTmplArgs(w, s, st), LeftTaken(t), at, WrittenLater(t), st.templates) == true
    decreases t, 0
  {
    match t
    case Named(_, args) => TmplReads(w, args, s, st, at);
    case Qualified(_, inner) => LeftReads(w, inner, s, st, at);
  }

  lemma AgainArguments(w: Words, s: string, st: State)
    requires st.cur < |s| && s[st.cur] == 'I' && !st.refQualifier
    ensures ReadType(w, s, st) ==
      match ReadTmplArgs(w, s, st) case None => None case Some(read) => PushSubst(read, read.output[|st.output|..])
  {
    assert Classify(w, 'I', Peek(s, st.cur + 1)) == Arguments;
    assert st.(refQualifier := false) == st;
    assert Again(w, s, st, |st.output|, []) == Body(w, s, st, |st.output|, []);
  }

  lemma {:induction false} LeftIsRead(w: Words, t: Type, s: string, st: State, at: nat)
    requires Plain(w, t) && Left(t).Cons? && StandsAt(s, st.cur, Enclosed(Left(t))) == true && !st.refQualifier
    requires at == st.cur + |Enclosed(Left(t))|
    ensures Outcome(st.output, ReadType(w, s, st), LeftTaken(t), at, WrittenLater(t), st.templates) == true
    decreases t, 1
  {
    CharAt(s, st.cur, Enclosed(Left(t)), 0);
    AgainArguments(w, s, st);
    LeftReads(w, t, s, st, at);
    LaterIsText(t);
  }

  lemma {:induction false} LaterIsText(t: Type)
    ensures Left(t).Cons? <==> WrittenLater(t) != ""
  {
    if t.Qualified? {
      LaterIsText(t.inner);
    }
  }

  lemma {:induction false} LeftPlain(w: Words, t: Type)
    requires Plain(w, t)
    ensures AllPlain(w, Left(t))
  {
    if t.Qualified? {
      LeftPlain(w, t.inner);
    }
  }

  lemma ArgSplits(args: List<Type>)
    requires args.Cons?
    ensures MangleAll(args) + "E" == Front(args.head) + (Enclosed(Left(args.head)) + (MangleAll(args.tail) + "E"))
    ensures |MangleAll(args)| == |Front(args.head)| + |Enclosed(Left(args.head))| + |MangleAll(args.tail)|
  {
    MangleSplits(args.head);
  }

  // What stands at an argument and after it.
  lemma ArgFront(w: Words, t: Type, more: string, s: string, cur: nat, at: nat, next: nat)
    requires Plain(w, t) && StandsAt(s, cur, Front(t) + (Enclosed(Left(t)) + more)) == true
    requires at == cur + |Front(t)| && next == at + |Enclosed(Left(t))|
    ensures StandsAt(s, cur, Front(t)) == true && Peek(s, cur) != 'L' && Peek(s, cur) != 'X'
    ensures StandsAt(s, at, Enclosed(Left(t))) == true && (Left(t).Cons? ==> Peek(s, at) == 'I')
    ensures StandsAt(s, next, more) == true
  {
    StandsSplit(s, cur, Front(t), Enclosed(Left(t)) + more);
    StandsSplit(s, at, Enclosed(Left(t)), more);
    Heads(w, t, Peek(s, cur + 1));
    CharAt(s, cur, Front(t), 0);
    if Left(t).Cons? {
      CharAt(s, at, Enclosed(Left(t)), 0);
    }
  }

  // What stands where the rest of a list is.
  lemma RestFront(w: Words, rest: List<Type>, s: string, at: nat)
    requires AllPlain(w, rest) && StandsAt(s, at, MangleAll(rest) + "E") == true
    ensures Peek(s, at) != 'I' && (Peek(s, at) == 'E' <==> rest.Nil?)
  {
    CharAt(s, at, MangleAll(rest) + "E", 0);
    if rest.Cons? {
      Heads(w, rest.head, 'E');
      MangleSplits(rest.head);
      assert (MangleAll(rest) + "E")[0] == Front(rest.head)[0];
    }
  }

  lemma LastArg(st: State, read: State, text: string, r: Option<State>)
    requires Reads(st.output, Some(read), read.cur, text, st.templates) && st.templates > 0
    requires var kept := Kept(read, text);
      r == Some(PushStr(kept.(cur := kept.cur + 1), ">").value.(isTmpl := true, templates := kept.templates - 1))
    ensures Reads(st.output, r, read.cur + 1, text + ">", st.templates - 1) == true
  {
    GrowsThrough(st, read, r.value, text, ">");
  }

  // A text read after another one.
  lemma Prepends(before: string, head: string, r: Option<State>, takes: bool, at: nat, text: string, whole: string, templates: int)
    requires Outcome(before + head, r, takes, at, text, templates) == true && whole == head + text
    ensures Outcome(before, r, takes, at, whole, templates) == true
  {
    Associates(before, head, text);
  }

  lemma Restates(before: string, r: Option<State>, takes: bool, at: nat, text: string, templates: int, takes': bool, at': nat, text': string)
    requires Outcome(before, r, takes, at, text, templates) == true && takes == takes' && at == at' && text == text'
    ensures Outcome(before, r, takes', at', text', templates) == true
  {
  }

  // The rest of a list after a turn of the loop, and whether the parser takes it.
  function RestText(rest: List<Type>): string {
    if rest.Nil? then ">" else ", " + (WrittenAll(rest) + ">")
  }

  predicate RestTaken(rest: List<Type>, limit: nat) {
    rest.Nil? || (limit + 1 + Turns(rest) <= MAX_TURNS && AllTaken(rest))
  }

  // A turn that reads some text, and the rest of the list.
  lemma {:induction false} TurnReads(w: Words, rest: List<Type>, s: string, st: State, limit: nat, takes: bool, at: nat, text: string, end: nat)
    requires AllPlain(w, rest) && StandsAt(s, at, MangleAll(rest) + "E") == true && end == at + |MangleAll(rest)| + 1
    requires st.templates > 0 && limit < MAX_TURNS && Peek(s, st.cur) != 'L' && Peek(s, st.cur) != 'X'
    requires Outcome(st.output, ReadType(w, s, st), takes, at, text, st.templates)
    ensures Outcome(st.output, ReadArgs(w, s, st, limit), takes && RestTaken(rest, limit), end, text + RestText(rest), st.templates - 1) == true
    decreases rest, 4
  {
    RestFront(w, rest, s, at);
    ArgsStep(w, s, st, limit);
    if takes {
      if rest.Nil? {
        LastArg(st, ReadType(w, s, st).value, text, ReadArgs(w, s, st, limit));
      } else if limit <= TRY_LIMIT {
        MoreReads(w, rest, s, PushStr(Kept(ReadType(w, s, st).value, text), ", ").value, limit, end, text, st.output);
      }
    }
  }

  // The list goes on after a comma.
  lemma {:induction false} MoreReads(w: Words, rest: List<Type>, s: string, next: State, limit: nat, end: nat, text: string, before: string)
    requires rest.Cons? && AllPlain(w, rest) && StandsAt(s, next.cur, MangleAll(rest) + "E") == true && !next.refQualifier
    requires next.templates > 0 && limit <= TRY_LIMIT && end == next.cur + |MangleAll(rest)| + 1
    requires next.output == before + text + ", "
    ensures Outcome(before, ReadArgs(w, s, next, limit + 1), RestTaken(rest, limit), end, text + RestText(rest), next.templates - 1) == true
    decreases rest, 3
  {
    var r := ReadArgs(w, s, next, limit + 1);
    ArgsRead(w, rest, s, next, limit + 1, end);
    Prepends(before + text, ", ", r, RestTaken(rest, limit), end, WrittenAll(rest) + ">", RestText(rest), next.templates - 1);
    Prepends(before, text, r, RestTaken(rest, limit), end, RestText(rest), text + RestText(rest), next.templates - 1);
  }

  // An argument takes one turn, and another one for the arguments that it left.
  predicate TurnTaken(t: Type, rest: List<Type>, limit: nat) {
    if Left(t).Nil? then Taken(t) && RestTaken(rest, limit)
    else Taken(t) && limit <= TRY_LIMIT && LeftTaken(t) && RestTaken(rest, limit + 1)
  }

  lemma TurnsTaken(args: List<Type>, limit: nat)
    requires args.Cons? && limit < MAX_TURNS
    ensures TurnTaken(args.head, args.tail, limit) <==> AllTaken(args) && limit + Turns(args) <= MAX_TURNS
  {
    if Left(args.head).Nil? {
      NothingLeft(args.head);
    }
    assert args.tail.Nil? ==> Turns(args.tail) == 0 && AllTaken(args.tail);
  }

  lemma ArgText(args: List<Type>)
    requires args.Cons?
    ensures WrittenAll(args) + ">" == Written(args.head) + (WrittenLater(args.head) + RestText(args.tail))
  {
  }

  lemma {:induction false} NothingLeft(t: Type)
    requires Left(t).Nil?
    ensures LeftTaken(t) && WrittenLater(t) == ""
  {
    if t.Qualified? {
      NothingLeft(t.inner);
    }
  }

  lemma {:induction false} ArgsRead(w: Words, args: List<Type>, s: string, st: State, limit: nat, end: nat)
    requires args.Cons? && AllPlain(w, args) && StandsAt(s, st.cur, MangleAll(args) + "E") == true && !st.refQualifier
    requires st.templates > 0 && limit < MAX_TURNS && end == st.cur + |MangleAll(args)| + 1
    ensures Outcome(st.output, ReadArgs(w, s, st, limit), AllTaken(args) && limit + Turns(args) <= MAX_TURNS,
      end, WrittenAll(args) + ">", st.templates - 1) == true
    decreases args, 2
  {
    var t, rest := args.head, args.tail;
    var at := st.cur + |Front(t)|;
    var next := at + |Enclosed(Left(t))|;
    ArgSplits(args);
    ArgFront(w, t, MangleAll(rest) + "E", s, st.cur, at, next);
    TurnsTaken(args, limit);
    ArgText(args);
    ArgReads(w, t, rest, s, st, limit, at, next, end);
    Restates(st.output, ReadArgs(w, s, st, limit), TurnTaken(t, rest, limit), end,
      Written(t) + (WrittenLater(t) + RestText(rest)), st.templates - 1,
      AllTaken(args) && limit + Turns(args) <= MAX_TURNS, end, WrittenAll(args) + ">");
  }

  lemma {:induction false} ArgReads(w: Words, t: Type, rest: List<Type>, s: string, st: State, limit: nat, at: nat, next: nat, end: nat)
    requires Plain(w, t) && AllPlain(w, rest) && !st.refQualifier && st.templates > 0 && limit < MAX_TURNS
    requires StandsAt(s, st.cur, Front(t)) == true && at == st.cur + |Front(t)| && StandsAt(s, at, Enclosed(Left(t))) == true
    requires next == at + |Enclosed(Left(t))| && StandsAt(s, next, MangleAll(rest) + "E") == true && end == next + |MangleAll(rest)| + 1
    requires Peek(s, st.cur) != 'L' && Peek(s, st.cur) != 'X' && (Left(t).Cons? ==> Peek(s, at) == 'I')
    ensures Outcome(st.output, ReadArgs(w, s, st, limit), TurnTaken(t, rest, limit),
      end, Written(t) + (WrittenLater(t) + RestText(rest)), st.templates - 1) == true
    decreases Cons(t, rest), 1
  {
    RestFront(w, rest, s, next);
    TypeReads(w, t, s, st, |st.output|, [], at);
    assert Written(t) + Suffix([]) == Written(t);
    if Left(t).Nil? {
      NothingLeft(t);
      assert "" + RestText(rest) == RestText(rest);
      TurnReads(w, rest, s, st, limit, Taken(t), at, Written(t), end);
    } else {
      TwoTurns(w, t, rest, s, st, limit, at, next, end);
    }
  }

  // An argument that leaves arguments, and the turn for them.
  lemma {:induction false} TwoTurns(w: Words, t: Type, rest: List<Type>, s: string, st: State, limit: nat, at: nat, next: nat, end: nat)
    requires Plain(w, t) && AllPlain(w, rest) && Left(t).Cons? && st.templates > 0 && limit < MAX_TURNS
    requires Outcome(st.output, ReadType(w, s, st), Taken(t), at, Written(t), st.templates)
    requires StandsAt(s, at, Enclosed(Left(t))) == true && Peek(s, at) == 'I' && next == at + |Enclosed(Left(t))|
    requires StandsAt(s, next, MangleAll(rest) + "E") == true && end == next + |MangleAll(rest)| + 1
    requires Peek(s, st.cur) != 'L' && Peek(s, st.cur) != 'X'
    ensures Outcome(st.output, ReadArgs(w, s, st, limit), TurnTaken(t, rest, limit),
      end, Written(t) + (WrittenLater(t) + RestText(rest)), st.templates - 1) == true
    decreases Cons(t, rest), 0, 1
  {
    ArgsStep(w, s, st, limit);
    if Taken(t) && limit <= TRY_LIMIT {
      var kept := Kept(ReadType(w, s, st).value, Written(t));
      LeftTurn(w, t, rest, s, kept, limit + 1, next, end);
      Prepends(st.output, Written(t), ReadArgs(w, s, kept, limit + 1), LeftTaken(t) && RestTaken(rest, limit + 1), end,
        WrittenLater(t) + RestText(rest), Written(t) + (WrittenLater(t) + RestText(rest)), st.templates - 1);
    }
  }

  // The turn for the arguments that an argument left.
  lemma {:induction false} LeftTurn(w: Words, t: Type, rest: List<Type>, s: string, st: State, limit: nat, next: nat, end: nat)
    requires Plain(w, t) && AllPlain(w, rest) && Left(t).Cons? && limit < MAX_TURNS && !st.refQualifier && st.templates > 0
    requires StandsAt(s, st.cur, Enclosed(Left(t))) == true && Peek(s, st.cur) == 'I'
    requires next == st.cur + |Enclosed(Left(t))| && StandsAt(s, next, MangleAll(rest) + "E") == true && end == next + |MangleAll(rest)| + 1
    ensures Outcome(st.output, ReadArgs(w, s, st, limit), LeftTaken(t) && RestTaken(rest, limit),
      end, WrittenLater(t) + RestText(rest), st.templates - 1) == true
    decreases Cons(t, rest), 0, 0
  {
    LeftIsRead(w, t, s, st, next);
    TurnReads(w, rest, s, st, limit, LeftTaken(t), next, WrittenLater(t), end);
  }

  // Reading a whole mangled type.
  lemma WholeReads(w: Words, t: Type)
    requires Plain(w, t)
    ensures var r := ReadType(w, Mangle(t), START);
      if Taken(t) then r.Some? && r.value.output == Written(t) else r.None?
  {
    MangleSplits(t);
    TypeReads(w, t, Mangle(t), START, 0, [], |Front(t)|);
    assert Written(t) + Suffix([]) == Written(t);
  }
}
