// The type parser of src/libelftc_dem_gnu3.c, on builtin types, source names with template
// arguments, and qualifiers.
//
// A mangled string is what precedes its terminating NUL. None stands for failure; it also stands
// for the forms that the parser knows and this model does not, and for reading beyond the string.
module TypeParser {
  import opened Lists

  const TRY_LIMIT := 128

  const LONG_MAX := 0x7fff_ffff_ffff_ffff

  const ANONYMOUS := "_GLOBAL__N_1"

  datatype Qualifier = Pointer | Reference | RvalueReference | Complex | Imaginary | Restrict | Volatile | Const

  predicate IsCv(q: Qualifier) {
    q.Restrict? || q.Volatile? || q.Const?
  }

  predicate IsReference(q: Qualifier) {
    q.Reference? || q.RvalueReference?
  }

  function QualifierOf(c: char): Option<Qualifier> {
    match c
    case 'P' => Some(Pointer)
    case 'R' => Some(Reference)
    case 'O' => Some(RvalueReference)
    case 'C' => Some(Complex)
    case 'G' => Some(Imaginary)
    case 'r' => Some(Restrict)
    case 'V' => Some(Volatile)
    case 'K' => Some(Const)
    case _ => None
  }

  function QualifierText(q: Qualifier): (r: string)
    ensures r != ""
  {
    match q
    case Pointer => "*"
    case Reference => "&"
    case RvalueReference => "&&"
    case Complex => " complex"
    case Imaginary => " imaginary"
    case Restrict => " restrict"
    case Volatile => " volatile"
    case Const => " const"
  }

  // What the codes of builtin types stand for: codes of one character, and the second characters of
  // codes that start with D.
  datatype WordTable = WordTable(one: map<char, string>, two: map<char, string>)

  predicate IsDigit(c: char) {
    '0' <= c <= '9'
  }

  // Characters that start something else than a builtin type.
  predicate IsOther(c: char) {
    IsDigit(c) || QualifierOf(c).Some? || c == '_' || c == 'D' || c == 'E' || c == 'I' || c == 'L' || c == 'X'
  }

  type Words = w: WordTable |
    (forall c :: c in w.one ==> w.one[c] != "" && !IsOther(c)) && (forall c :: c in w.two ==> w.two[c] != "")
    witness WordTable(map[], map[])

  // What the parser does at a character: note a qualifier, write a word for a code of one or two
  // characters, read template arguments, or read a name.
  datatype Head = Prefix(q: Qualifier) | Word(text: string, length: nat) | Arguments | Name | Unknown

  function Classify(w: Words, c: char, d: char): (r: Head)
    ensures r.Word? ==> 1 <= r.length <= 2 && r.text != ""
  {
    if QualifierOf(c).Some? then Prefix(QualifierOf(c).value)
    else if c in w.one then Word(w.one[c], 1)
    else if c == 'D' then if d in w.two then Word(w.two[d], 2) else Unknown
    else if c == 'I' then Arguments
    else if IsDigit(c) then Name
    else Unknown
  }

  // ----- cpp_demangle_data -----

  datatype State = State(
    cur: nat,
    output: string,          // the pieces of the output vector, joined
    subst: seq<string>,      // substitution candidates
    tmpl: seq<string>,       // template arguments
    templates: nat,          // the READ_TMPL entries of the command stack
    isTmpl: bool,
    refQualifier: bool)

  const START := State(0, "", [], [], 0, false, false)

  predicate StartsWith(t: string, prefix: string) {
    |prefix| <= |t| && t[..|prefix|] == prefix
  }

  // vector_str_find: compares as many characters as the string to find has.
  predicate Finds(v: seq<string>, t: string) {
    exists i :: 0 <= i < |v| && StartsWith(v[i], t)
  }

  function PushStr(st: State, t: string): (r: Option<State>)
    ensures r.Some? <==> t != ""
  {
    if t == "" then None else Some(st.(output := st.output + t, isTmpl := false))
  }

  function PushSubst(st: State, t: string): (r: Option<State>)
    ensures r.Some? <==> t != ""
  {
    if t == "" then None else if Finds(st.subst, t) then Some(st) else Some(st.(subst := st.subst + [t]))
  }

  function Peek(s: string, cur: nat): char {
    if cur < |s| then s[cur] else '\0'
  }

  // cpp_demangle_push_type_qualifier for the qualifiers up to idx, innermost last; t is the text of
  // the type so far. Of adjacent const, volatile and restrict only the last becomes a candidate.
  function PushQualifiers(st: State, v: seq<Qualifier>, idx: nat, t: string): State
    requires idx <= |v|
    decreases idx
  {
    if idx == 0 then st
    else
      var q := v[idx - 1];
      var t' := t + QualifierText(q);
      var pushed := PushStr(st, QualifierText(q)).value;
      var st' := if IsCv(q) && idx > 1 && IsCv(v[idx - 2]) then pushed else PushSubst(pushed, t').value;
      PushQualifiers(st', v, idx - 1, t')
  }

  // ----- Names -----

  // strtol without its limit: the digits from cur on.
  function ReadDecimal(s: string, cur: nat, acc: nat): (r: (nat, nat))
    ensures cur <= r.1 && (cur <= |s| ==> r.1 <= |s|)
    ensures cur < |s| && IsDigit(s[cur]) ==> cur < r.1
    decreases |s| - cur
  {
    if cur < |s| && IsDigit(s[cur]) then ReadDecimal(s, cur + 1, acc * 10 + (s[cur] - '0') as nat) else (acc, cur)
  }

  // cpp_demangle_read_number
  function ReadNumber(s: string, cur: nat): (r: Option<(int, nat)>)
    ensures r.Some? ==> cur < r.value.1 <= |s|
  {
    var negative := Peek(s, cur) == 'n';
    var start := if negative then cur + 1 else cur;
    if !IsDigit(Peek(s, start)) then None
    else
      var (n, end) := ReadDecimal(s, start, 0);
      var len := if n > LONG_MAX then LONG_MAX else n;
      Some((if negative then -len else len, end))
  }

  // cpp_demangle_read_sname
  function ReadSname(s: string, st: State): (r: Option<State>)
    ensures r.Some? ==> st.cur < r.value.cur <= |s| && |r.value.output| > |st.output|
  {
    match ReadNumber(s, st.cur)
    case None => None
    case Some((len, start)) =>
      if len <= 0 || start + len > |s| then None
      else
        var name := s[start..start + len];
        match PushStr(st, if name == ANONYMOUS then "(anonymous namespace)" else name)
        case None => None
        case Some(pushed) => Some(pushed.(cur := start + len))
  }

  predicate Contains(t: string, part: string) {
    exists i :: 0 <= i <= |t| && StartsWith(t[i..], part)
  }

  predicate IsOperator(t: string) {
    |t| > 8 && Contains(t, "operator")
  }

  // cpp_demangle_read_name for source names. A longer name with "operator" in it is not a candidate,
  // and template arguments after it are left to the caller.
  function ReadName(w: Words, s: string, st: State): (r: Option<State>)
    ensures r.Some? ==> st.cur < r.value.cur <= |s| && |r.value.output| > |st.output|
    decreases |s| - st.cur, 1
  {
    if !IsDigit(Peek(s, st.cur)) then None
    else
      match ReadSname(s, st)
      case None => None
      case Some(named) =>
        var name := named.output[|st.output|..];
        if IsOperator(name) then Some(named)
        else
          match PushSubst(named, name)
          case None => None
          case Some(candidate) =>
            if Peek(s, candidate.cur) != 'I' then Some(candidate)
            else
              match ReadTmplArgs(w, s, candidate)
              case None => None
              case Some(whole) => PushSubst(whole, whole.output[|st.output|..])
  }

  // cpp_demangle_read_tmpl_args
  function ReadTmplArgs(w: Words, s: string, st: State): (r: Option<State>)
    ensures r.Some? ==> st.cur < r.value.cur <= |s| && |r.value.output| > |st.output|
    decreases |s| - st.cur, 0
  {
    if st.cur >= |s| then None
    else
      match PushStr(st.(cur := st.cur + 1, templates := st.templates + 1), "<")
      case None => None
      case Some(begun) => ReadArgs(w, s, begun, 0)
  }

  // The loop over the arguments.
  function ReadArgs(w: Words, s: string, st: State, limit: nat): (r: Option<State>)
    ensures r.Some? ==> st.cur < r.value.cur <= |s| && |r.value.output| > |st.output|
    decreases |s| - st.cur, 5
  {
    if Peek(s, st.cur) == 'L' || Peek(s, st.cur) == 'X' then None
    else
      match ReadType(w, s, st)
      case None => None
      case Some(read) =>
        var arg := read.output[|st.output|..];
        var kept := if Finds(read.tmpl, arg) then read else read.(tmpl := read.tmpl + [arg]);
        if Peek(s, kept.cur) == 'E' then
          match PushStr(kept.(cur := kept.cur + 1), ">")
          case None => None
          case Some(closed) => if closed.templates == 0 then None else Some(closed.(isTmpl := true, templates := closed.templates - 1))
        else
          var next := if Peek(s, kept.cur) == 'I' then kept else PushStr(kept, ", ").value;
          if limit > TRY_LIMIT then None else ReadArgs(w, s, next, limit + 1)
  }

  // ----- Types -----

  // cpp_demangle_read_type, without a delimiter for function arguments.
  function ReadType(w: Words, s: string, st: State): (r: Option<State>)
    ensures r.Some? ==> st.cur < r.value.cur <= |s| && |r.value.output| > |st.output|
    decreases |s| - st.cur, 4
  {
    Again(w, s, st, |st.output|, [])
  }

  // The end of a type: a type that is not builtin becomes a candidate, and the qualifiers follow.
  function Finish(st: State, start: nat, v: seq<Qualifier>, builtin: bool): State
    requires start <= |st.output|
  {
    var t := st.output[start..];
    var candidate := if builtin || Finds(st.subst, t) then st else st.(subst := st.subst + [t]);
    PushQualifiers(candidate, v, |v|, t)
  }

  lemma {:induction false} PushKeeps(st: State, v: seq<Qualifier>, idx: nat, t: string)
    requires idx <= |v|
    ensures var r := PushQualifiers(st, v, idx, t);
      |r.output| >= |st.output| && r == st.(output := r.output, subst := r.subst, isTmpl := r.isTmpl)
    decreases idx
  {
    if idx > 0 {
      var q := v[idx - 1];
      var t' := t + QualifierText(q);
      var pushed := PushStr(st, QualifierText(q)).value;
      var st' := if IsCv(q) && idx > 1 && IsCv(v[idx - 2]) then pushed else PushSubst(pushed, t').value;
      PushKeeps(st', v, idx - 1, t');
    }
  }

  lemma FinishKeeps(st: State, start: nat, v: seq<Qualifier>, builtin: bool)
    requires start <= |st.output|
    ensures var r := Finish(st, start, v, builtin); |r.output| >= |st.output| && r.cur == st.cur
  {
    var t := st.output[start..];
    PushKeeps(if builtin || Finds(st.subst, t) then st else st.(subst := st.subst + [t]), v, |v|, t);
  }

  // The loop over the qualifiers v in front of a type, up to the type itself. A reference clears
  // its mark only when something other than a reference follows.
  function Again(w: Words, s: string, st: State, start: nat, v: seq<Qualifier>): (r: Option<State>)
    requires start <= |st.output|
    ensures r.Some? ==> st.cur < r.value.cur <= |s| && |r.value.output| > |st.output|
    decreases |s| - st.cur, 3
  {
    if st.cur >= |s| then None
    else
      var clear := Clear(st, s[st.cur]);
      match Classify(w, s[st.cur], Peek(s, st.cur + 1))
      case Prefix(q) =>
        if IsReference(q) && clear.refQualifier then None
        else Again(w, s, clear.(cur := st.cur + 1, refQualifier := clear.refQualifier || IsReference(q)), start, v + [q])
      case _ => Body(w, s, clear, start, v)
  }

  function Clear(st: State, c: char): State {
    if c == 'R' || c == 'O' || c == 'E' then st else st.(refQualifier := false)
  }

  // What follows the qualifiers.
  function Body(w: Words, s: string, st: State, start: nat, v: seq<Qualifier>): (r: Option<State>)
    requires start <= |st.output| && st.cur < |s|
    ensures r.Some? ==> st.cur < r.value.cur <= |s| && |r.value.output| > |st.output|
    decreases |s| - st.cur, 2
  {
    match Classify(w, s[st.cur], Peek(s, st.cur + 1))
    case Prefix(_) => None
    case Word(text, length) =>
      if st.cur + length > |s| then None
      else
        var read := PushStr(st, text).value.(cur := st.cur + length);
        FinishKeeps(read, start, v, true);
        Some(Finish(read, start, v, true))
    case Arguments =>
      (match ReadTmplArgs(w, s, st)
       case None => None
       case Some(read) => FinishArgs(read, |st.output|, v))
    case Name =>
      (match ReadName(w, s, st)
       case None => None
       case Some(read) =>
         FinishKeeps(read, start, v, false);
         Some(Finish(read, start, v, false)))
    case Unknown => None
  }

  // The end of template arguments on their own.
  function FinishArgs(st: State, start: nat, v: seq<Qualifier>): (r: Option<State>)
    requires start <= |st.output|
    ensures r.Some? ==> r.value.cur == st.cur && |r.value.output| >= |st.output|
  {
    match PushSubst(st, st.output[start..])
    case None => None
    case Some(candidate) =>
      FinishKeeps(candidate, start, v, true);
      Some(Finish(candidate, start, v, true))
  }
}
