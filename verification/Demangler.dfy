// The type parser as src/libelftc_dem_gnu3.c runs it: a position that moves over the string, flags,
// and vectors of strings that are pushed in place.
module Demangler {
  import opened Lists
  import opened TypeParser
  import Demangling

  // vector_str_get_flat
  function Flat(v: seq<string>): string {
    if v == [] then "" else Flat(v[..|v| - 1]) + v[|v| - 1]
  }

  lemma {:induction false} FlatJoin(v: seq<string>, p: nat)
    requires p <= |v|
    ensures Flat(v) == Flat(v[..p]) + Flat(v[p..])
  {
    if p < |v| {
      FlatJoin(v[..|v| - 1], p);
      assert v[..|v| - 1][..p] == v[..p];
      assert v[..|v| - 1][p..] == v[p..][..|v| - p - 1];
    } else {
      assert v[..p] == v && v[p..] == [];
    }
  }

  class Parser {
    const words: Words
    const text: string
    var cur: nat
    var output: seq<string>
    var subst: seq<string>
    var tmpl: seq<string>
    var templates: nat
    var isTmpl: bool
    var refQualifier: bool

    function State(): State
      reads this
    {
      TypeParser.State(cur, Flat(output), subst, tmpl, templates, isTmpl, refQualifier)
    }

    // What a call that ends here leaves behind.
    function Left(ok: bool): Option<State>
      reads this
    {
      if ok then Some(State()) else None
    }

    // cpp_demangle_data_init
    constructor (words: Words, text: string)
      ensures State() == START && this.words == words && this.text == text
    {
      this.words, this.text := words, text;
      cur, output, subst, tmpl, templates, isTmpl, refQualifier := 0, [], [], [], 0, false, false;
    }

    // vector_str_find
    method Find(v: seq<string>, t: string) returns (found: bool)
      ensures found <==> Finds(v, t)
    {
      for i := 0 to |v|
        invariant forall k :: 0 <= k < i ==> !StartsWith(v[k], t)
      {
        if StartsWith(v[i], t) {
          return true;
        }
      }
      return false;
    }

    // cpp_demangle_push_str
    method Push(t: string) returns (ok: bool)
      modifies this`output, this`isTmpl
      ensures ok <==> t != ""
      ensures output == if ok then old(output) + [t] else old(output)
      ensures ok ==> Some(State()) == PushStr(old(State()), t)
    {
      if t == "" {
        return false;
      }
      isTmpl := false;
      output := output + [t];
      assert output[..|output| - 1] == old(output);
      return true;
    }

    // cpp_demangle_push_subst
    method PushCandidate(t: string) returns (ok: bool)
      modifies this`subst
      ensures ok <==> t != ""
      ensures ok ==> Some(State()) == PushSubst(old(State()), t)
    {
      if t == "" {
        return false;
      }
      var found := Find(subst, t);
      if !found {
        subst := subst + [t];
      }
      return true;
    }

    // vector_str_substr up to the end
    method SubStr(begin: nat) returns (t: string)
      requires begin <= |output|
      ensures t == Flat(output[begin..])
      ensures State().output == Flat(output[..begin]) + t && t == State().output[|Flat(output[..begin])|..]
    {
      t := "";
      for i := begin to |output|
        invariant t == Flat(output[begin..i])
      {
        assert output[begin..i + 1][..i - begin] == output[begin..i];
        t := t + output[i];
      }
      assert output[begin..|output|] == output[begin..];
      FlatJoin(output, begin);
    }

    // One qualifier, which becomes a candidate together with what stands before it, or not.
    method PushQualifier(q: Qualifier, candidate: bool, substV: string)
      requires substV != ""
      modifies this`output, this`isTmpl, this`subst
      ensures output == old(output) + [QualifierText(q)]
      ensures var pushed := PushStr(old(State()), QualifierText(q)).value;
        State() == if candidate then PushSubst(pushed, substV).value else pushed
    {
      var ok := Push(QualifierText(q));
      if candidate {
        ok := PushCandidate(substV);
      }
    }

    // cpp_demangle_push_type_qualifier
    method PushTypeQualifier(v: seq<Qualifier>, typeStr: string)
      modifies this`output, this`isTmpl, this`subst
      ensures State() == PushQualifiers(old(State()), v, |v|, typeStr)
      ensures old(output) <= output
    {
      var idx: nat, substV := |v|, typeStr;
      while idx > 0
        invariant idx <= |v| && old(output) <= output
        invariant PushQualifiers(State(), v, idx, substV) == PushQualifiers(old(State()), v, |v|, typeStr)
      {
        var q := v[idx - 1];
        var inner := idx - 1 > 0 && IsCv(v[idx - 2]);
        substV := substV + QualifierText(q);
        PushQualifier(q, !(IsCv(q) && inner), substV);
        idx := idx - 1;
      }
    }

    // cpp_demangle_read_number
    method ReadNumber() returns (ok: bool, len: int)
      modifies this`cur
      ensures match TypeParser.ReadNumber(text, old(cur)) case None => !ok case Some((n, end)) => ok && len == n && cur == end
    {
      var negative := Peek(text, cur) == 'n';
      if negative {
        cur := cur + 1;
      }
      if !IsDigit(Peek(text, cur)) {
        return false, 0;
      }
      ghost var start := cur;
      var n: nat := 0;
      while cur < |text| && IsDigit(text[cur])
        invariant ReadDecimal(text, cur, n) == ReadDecimal(text, start, 0)
        decreases |text| - cur
      {
        n := n * 10 + (text[cur] - '0') as nat;
        cur := cur + 1;
      }
      len := if n > LONG_MAX then LONG_MAX else n;
      return true, if negative then -len else len;
    }

    // cpp_demangle_read_sname
    method ReadSname() returns (ok: bool)
      modifies this`cur, this`output, this`isTmpl
      ensures Left(ok) == TypeParser.ReadSname(text, old(State()))
      ensures ok ==> old(output) <= output && |output| == |old(output)| + 1
    {
      var read, len := ReadNumber();
      if !read || len <= 0 || cur + len > |text| {
        return false;
      }
      var name := text[cur..cur + len];
      ok := Push(if name == ANONYMOUS then "(anonymous namespace)" else name);
      cur := cur + len;
    }

    // cpp_demangle_read_name
    method ReadName() returns (ok: bool)
      modifies this
      ensures Left(ok) == TypeParser.ReadName(words, text, old(State()))
      ensures ok ==> old(output) <= output
      decreases |text| - cur, 1
    {
      if !IsDigit(Peek(text, cur)) {
        return false;
      }
      var begin := |output|;
      ok := ReadSname();
      if !ok {
        return false;
      }
      var name := SubStr(begin);
      assert output[..begin] == old(output);
      if IsOperator(name) {
        return true;
      }
      ok := PushCandidate(name);
      if !ok || Peek(text, cur) != 'I' {
        return ok;
      }
      ok := ReadTmplArgs();
      if !ok {
        return false;
      }
      assert output[..begin] == old(output);
      var whole := SubStr(begin);
      ok := PushCandidate(whole);
    }

    // The first argument and every later one: reads it and keeps it as a template argument.
    method ReadTmplArg() returns (ok: bool)
      modifies this
      ensures ok <==> Peek(text, old(cur)) != 'L' && Peek(text, old(cur)) != 'X' && TypeParser.ReadType(words, text, old(State())).Some?
      ensures ok ==>
        var read := TypeParser.ReadType(words, text, old(State())).value;
        var arg := read.output[|old(State()).output|..];
        && State() == (if Finds(read.tmpl, arg) then read else read.(tmpl := read.tmpl + [arg]))
        && old(output) <= output
      decreases |text| - cur, 5
    {
      if Peek(text, cur) == 'L' || Peek(text, cur) == 'X' {
        return false;
      }
      var idx := |output|;
      ok := ReadType();
      if !ok {
        return false;
      }
      assert output[..idx] == old(output);
      var arg := SubStr(idx);
      var found := Find(tmpl, arg);
      if !found {
        tmpl := tmpl + [arg];
      }
    }

    // One pass of the loop over the arguments.
    method NextArg(limit: nat) returns (ok: bool, done: bool)
      modifies this
      ensures !ok ==> ReadArgs(words, text, old(State()), limit).None?
      ensures ok && done ==> ReadArgs(words, text, old(State()), limit) == Some(State())
      ensures ok && !done ==> ReadArgs(words, text, old(State()), limit) == ReadArgs(words, text, State(), limit + 1)
      ensures ok ==> old(output) <= output && old(cur) < cur <= |text|
      decreases |text| - cur, 6
    {
      ok := ReadTmplArg();
      if !ok {
        return false, false;
      }
      if Peek(text, cur) == 'E' {
        cur := cur + 1;
        ok := Push(">");
        isTmpl := true;
        if templates == 0 {
          return false, false;
        }
        templates := templates - 1;
        return true, true;
      }
      if Peek(text, cur) != 'I' {
        ok := Push(", ");
      }
      if limit > TRY_LIMIT {
        return false, false;
      }
      return true, false;
    }

    // cpp_demangle_read_tmpl_args
    method ReadTmplArgs() returns (ok: bool)
      modifies this
      ensures Left(ok) == TypeParser.ReadTmplArgs(words, text, old(State()))
      ensures ok ==> old(output) <= output
      decreases |text| - cur, 0
    {
      if cur >= |text| {
        return false;
      }
      cur := cur + 1;
      templates := templates + 1;
      ok := Push("<");
      ghost var begun := State();
      var limit, done := 0, false;
      while !done
        invariant old(output) <= output && old(cur) < cur <= |text|
        invariant if done then ReadArgs(words, text, begun, 0) == Some(State())
          else ReadArgs(words, text, begun, 0) == ReadArgs(words, text, State(), limit)
        decreases !done, |text| - cur
      {
        ok, done := NextArg(limit);
        if !ok {
          return false;
        }
        limit := limit + 1;
      }
      return true;
    }

    // The end of cpp_demangle_read_type: begin is where the type starts in the output.
    method FinishType(begin: nat, v: seq<Qualifier>, builtin: bool)
      requires begin <= |output|
      modifies this`output, this`isTmpl, this`subst
      ensures |Flat(old(output)[..begin])| <= |old(State()).output|
      ensures State() == Finish(old(State()), |Flat(old(output)[..begin])|, v, builtin)
      ensures old(output) <= output
    {
      var typeStr := SubStr(begin);
      if !builtin {
        var found := Find(subst, typeStr);
        if !found {
          subst := subst + [typeStr];
        }
      }
      PushTypeQualifier(v, typeStr);
    }

    // The word for a builtin type.
    method ReadWord(word: string, length: nat, v: seq<Qualifier>) returns (ok: bool)
      requires word != ""
      modifies this`cur, this`output, this`isTmpl, this`subst
      ensures ok <==> old(cur) + length <= |text|
      ensures ok ==>
        State() == Finish(PushStr(old(State()), word).value.(cur := old(cur) + length), |old(State()).output|, v, true)
        && old(output) <= output
    {
      if cur + length > |text| {
        return false;
      }
      var begin := |output|;
      ok := Push(word);
      cur := cur + length;
      assert output[..begin] == old(output);
      FinishType(begin, v, true);
    }

    // Template arguments on their own.
    method ReadArguments(v: seq<Qualifier>) returns (ok: bool)
      modifies this
      ensures var read := TypeParser.ReadTmplArgs(words, text, old(State()));
        match read
        case None => !ok
        case Some(st) => ok <==> FinishArgs(st, |old(State()).output|, v).Some?
      ensures ok ==>
        && Some(State()) == FinishArgs(TypeParser.ReadTmplArgs(words, text, old(State())).value, |old(State()).output|, v)
        && old(output) <= output
      decreases |text| - cur, 1
    {
      var begin := |output|;
      ok := ReadTmplArgs();
      if !ok {
        return false;
      }
      assert output[..begin] == old(output);
      var args := SubStr(begin);
      ok := PushCandidate(args);
      if ok {
        FinishType(begin, v, true);
      }
    }

    // A source name.
    method ReadNamed(v: seq<Qualifier>) returns (ok: bool)
      modifies this
      ensures ok <==> TypeParser.ReadName(words, text, old(State())).Some?
      ensures ok ==>
        && State() == Finish(TypeParser.ReadName(words, text, old(State())).value, |old(State()).output|, v, false)
        && old(output) <= output
      decreases |text| - cur, 2
    {
      var begin := |output|;
      ok := ReadName();
      if ok {
        assert output[..begin] == old(output);
        FinishType(begin, v, false);
      }
    }

    // A qualifier in front of a type. A reference right after a reference is refused.
    method ReadPrefix(q: Qualifier, ghost v: seq<Qualifier>) returns (ok: bool)
      requires cur < |text| && Classify(words, text[cur], Peek(text, cur + 1)) == Prefix(q)
      modifies this`cur, this`refQualifier
      ensures Again(words, text, old(State()), |State().output|, v)
        == if ok then Again(words, text, State(), |State().output|, v + [q]) else None
      ensures ok ==> cur == old(cur) + 1
    {
      ClearMark();
      if IsReference(q) {
        if refQualifier {
          return false;
        }
        refQualifier := true;
      }
      cur := cur + 1;
      return true;
    }

    // Anything but a reference clears the mark of a reference.
    method ClearMark()
      requires cur < |text|
      modifies this`refQualifier
      ensures State() == Clear(old(State()), text[cur])
    {
      if text[cur] != 'R' && text[cur] != 'O' && text[cur] != 'E' {
        refQualifier := false;
      }
    }

    // What follows the qualifiers v.
    method ReadBody(v: seq<Qualifier>) returns (ok: bool)
      requires cur < |text|
      modifies this
      ensures Left(ok) == Body(words, text, old(State()), |old(State()).output|, v)
      ensures ok ==> old(output) <= output
      decreases |text| - cur, 3
    {
      match Classify(words, text[cur], Peek(text, cur + 1))
      case Prefix(_) => ok := false;
      case Word(word, length) => ok := ReadWord(word, length, v);
      case Arguments => ok := ReadArguments(v);
      case Name => ok := ReadNamed(v);
      case Unknown => ok := false;
    }

    // cpp_demangle_read_type
    method ReadType() returns (ok: bool)
      modifies this
      ensures Left(ok) == TypeParser.ReadType(words, text, old(State()))
      ensures ok ==> old(output) <= output
      decreases |text| - cur, 4
    {
      var v: seq<Qualifier> := [];
      while cur < |text| && Classify(words, text[cur], Peek(text, cur + 1)).Prefix?
        invariant output == old(output) && old(cur) <= cur
        invariant Again(words, text, State(), |State().output|, v) == TypeParser.ReadType(words, text, old(State()))
        decreases |text| - cur
      {
        var q := Classify(words, text[cur], Peek(text, cur + 1)).q;
        ok := ReadPrefix(q, v);
        if !ok {
          return false;
        }
        v := v + [q];
      }
      if cur >= |text| {
        return false;
      }
      ClearMark();
      ok := ReadBody(v);
    }
  }

  // __cxa_demangle_gnu3 on a string that is not an encoding.
  method DemangleType(words: Words, text: string) returns (r: Option<string>)
    ensures r == Demangling.Demangle(words, text)
  {
    if |text| >= 2 && text[0] == '_' && text[1] == 'Z' {
      return None;
    }
    var parser := new Parser(words, text);
    var ok := parser.ReadType();
    r := if ok then Some(Flat(parser.output)) else None;
  }
}
