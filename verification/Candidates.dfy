// What the type parser of src/libelftc_dem_gnu3.c records for later references: the substitution
// candidates and the template arguments. Reading them back is not part of this model.
module Candidates {
  import opened Lists
  import opened TypeParser
  import DemangleRoundTrip

  // Nothing recorded is lost.
  predicate Grows(a: State, b: State) {
    && |a.subst| <= |b.subst| && b.subst[..|a.subst|] == a.subst
    && |a.tmpl| <= |b.tmpl| && b.tmpl[..|a.tmpl|] == a.tmpl
  }

  lemma GrowsOn(a: State, b: State, c: State)
    requires Grows(a, b) && Grows(b, c)
    ensures Grows(a, c)
  {
  }

  lemma FindsLonger(v: seq<string>, u: seq<string>, t: string)
    requires Finds(v, t) && |v| <= |u| && u[..|v|] == v
    ensures Finds(u, t)
  {
    var i :| 0 <= i < |v| && StartsWith(v[i], t);
    assert u[i] == v[i];
  }

  lemma FindsLast(v: seq<string>, t: string)
    ensures Finds(v + [t], t)
  {
    assert StartsWith((v + [t])[|v|], t);
  }

  lemma SubstGrows(st: State, t: string)
    requires t != ""
    ensures var r := PushSubst(st, t).value; Grows(st, r) && Finds(r.subst, t) && r == st.(subst := r.subst)
  {
    FindsLast(st.subst, t);
  }

  // One qualifier.
  lemma QualifierGrows(st: State, q: Qualifier, skipped: bool, t: string)
    ensures var t' := t + QualifierText(q);
      var pushed := PushStr(st, QualifierText(q)).value;
      var st' := if skipped then pushed else PushSubst(pushed, t').value;
      Grows(st, st') && (skipped || Finds(st'.subst, t'))
  {
    var pushed := PushStr(st, QualifierText(q)).value;
    SubstGrows(pushed, t + QualifierText(q));
  }

  lemma SuffixCons(v: seq<Qualifier>, idx: nat, t: string)
    requires 0 < idx <= |v|
    ensures (t + QualifierText(v[idx - 1])) + DemangleRoundTrip.Suffix(v[..idx - 1]) == t + DemangleRoundTrip.Suffix(v[..idx])
  {
    assert v[..idx][..idx - 1] == v[..idx - 1] && v[..idx][idx - 1] == v[idx - 1];
  }

  // With its qualifiers, each a candidate but for those of adjacent const, volatile and restrict that
  // others follow, the whole type is one.
  lemma {:induction false} QualifiersGrow(st: State, v: seq<Qualifier>, idx: nat, t: string)
    requires idx <= |v|
    ensures var r := PushQualifiers(st, v, idx, t);
      Grows(st, r) && (idx > 0 ==> Finds(r.subst, t + DemangleRoundTrip.Suffix(v[..idx])))
    decreases idx
  {
    if idx > 0 {
      var q := v[idx - 1];
      var t' := t + QualifierText(q);
      var pushed := PushStr(st, QualifierText(q)).value;
      var skipped := IsCv(q) && idx > 1 && IsCv(v[idx - 2]);
      var st' := if skipped then pushed else PushSubst(pushed, t').value;
      QualifierGrows(st, q, skipped, t);
      QualifiersGrow(st', v, idx - 1, t');
      GrowsOn(st, st', PushQualifiers(st', v, idx - 1, t'));
      SuffixCons(v, idx, t);
      if idx == 1 {
        assert DemangleRoundTrip.Suffix(v[..0]) == "" && t' + "" == t';
        FindsLonger(st'.subst, PushQualifiers(st', v, 0, t').subst, t');
      }
    }
  }

  lemma QualifiedText(st: State, start: nat, v: seq<Qualifier>)
    requires start <= |st.output|
    ensures var t := st.output[start..];
      var r := PushQualifiers(st, v, |v|, t);
      |r.output| >= start && r.output[start..] == t + DemangleRoundTrip.Suffix(v[..|v|])
  {
    DemangleRoundTrip.PushesSuffix(st, v, |v|, st.output[start..]);
  }

  // Before the qualifiers.
  function Candidate(st: State, t: string, builtin: bool): State {
    if builtin || Finds(st.subst, t) then st else st.(subst := st.subst + [t])
  }

  lemma CandidateGrows(st: State, t: string, builtin: bool)
    ensures var r := Candidate(st, t, builtin);
      Grows(st, r) && (!builtin || Finds(st.subst, t) ==> Finds(r.subst, t)) && r.output == st.output
  {
    FindsLast(st.subst, t);
  }

  // The end of a type: the whole of it is a candidate, unless it is a builtin type without qualifiers.
  lemma FinishGrows(st: State, start: nat, v: seq<Qualifier>, builtin: bool)
    requires start <= |st.output|
    ensures var r := Finish(st, start, v, builtin);
      && Grows(st, r) && |r.output| >= start
      && (!builtin || v != [] || Finds(st.subst, st.output[start..]) ==> Finds(r.subst, r.output[start..]))
  {
    var t := st.output[start..];
    var candidate := Candidate(st, t, builtin);
    CandidateGrows(st, t, builtin);
    QualifiersGrow(candidate, v, |v|, t);
    QualifiedText(candidate, start, v);
    GrowsOn(st, candidate, PushQualifiers(candidate, v, |v|, t));
    if v == [] {
      assert t + DemangleRoundTrip.Suffix(v[..0]) == t;
    }
  }

  lemma NameGrows(w: Words, s: string, st: State)
    requires ReadName(w, s, st).Some?
    ensures Grows(st, ReadName(w, s, st).value)
    decreases |s| - st.cur, 1
  {
    var named := ReadSname(s, st).value;
    var name := named.output[|st.output|..];
    if !IsOperator(name) {
      SubstGrows(named, name);
      var candidate := PushSubst(named, name).value;
      if Peek(s, candidate.cur) == 'I' {
        TmplArgsGrow(w, s, candidate);
        var whole := ReadTmplArgs(w, s, candidate).value;
        SubstGrows(whole, whole.output[|st.output|..]);
        GrowsOn(candidate, whole, ReadName(w, s, st).value);
        GrowsOn(named, candidate, ReadName(w, s, st).value);
      }
    }
  }

  lemma TmplArgsGrow(w: Words, s: string, st: State)
    requires ReadTmplArgs(w, s, st).Some?
    ensures Grows(st, ReadTmplArgs(w, s, st).value)
    decreases |s| - st.cur, 0
  {
    var begun := PushStr(st.(cur := st.cur + 1, templates := st.templates + 1), "<").value;
    ArgsGrow(w, s, begun, 0);
  }

  // Every argument is kept as a template argument.
  lemma ArgsGrow(w: Words, s: string, st: State, limit: nat)
    requires ReadArgs(w, s, st, limit).Some?
    ensures Grows(st, ReadArgs(w, s, st, limit).value)
    ensures ReadType(w, s, st).Some?
    ensures Finds(ReadArgs(w, s, st, limit).value.tmpl, ReadType(w, s, st).value.output[|st.output|..])
    decreases |s| - st.cur, 5
  {
    TypeGrows(w, s, st);
    var read := ReadType(w, s, st).value;
    var arg := read.output[|st.output|..];
    var kept := if Finds(read.tmpl, arg) then read else read.(tmpl := read.tmpl + [arg]);
    FindsLast(read.tmpl, arg);
    GrowsOn(st, read, kept);
    var r := ReadArgs(w, s, st, limit).value;
    if Peek(s, kept.cur) != 'E' {
      var next := if Peek(s, kept.cur) == 'I' then kept else PushStr(kept, ", ").value;
      ArgsGrow(w, s, next, limit + 1);
      GrowsOn(st, next, r);
    }
    FindsLonger(kept.tmpl, r.tmpl, arg);
  }

  lemma TypeGrows(w: Words, s: string, st: State)
    requires ReadType(w, s, st).Some?
    ensures Grows(st, ReadType(w, s, st).value)
    ensures Classify(w, Peek(s, st.cur), Peek(s, st.cur + 1)).Word?
      || Finds(ReadType(w, s, st).value.subst, ReadType(w, s, st).value.output[|st.output|..])
    decreases |s| - st.cur, 4
  {
    AgainGrows(w, s, st, |st.output|, []);
  }

  lemma AgainGrows(w: Words, s: string, st: State, start: nat, v: seq<Qualifier>)
    requires start == |st.output| && Again(w, s, st, start, v).Some?
    ensures Grows(st, Again(w, s, st, start, v).value)
    ensures (v == [] && Classify(w, Peek(s, st.cur), Peek(s, st.cur + 1)).Word?)
      || Finds(Again(w, s, st, start, v).value.subst, Again(w, s, st, start, v).value.output[start..])
    decreases |s| - st.cur, 3
  {
    var clear := Clear(st, s[st.cur]);
    match Classify(w, s[st.cur], Peek(s, st.cur + 1))
    case Prefix(q) =>
      AgainGrows(w, s, clear.(cur := st.cur + 1, refQualifier := clear.refQualifier || IsReference(q)), start, v + [q]);
    case _ => BodyGrows(w, s, clear, start, v);
  }

  lemma ArgumentsGrow(read: State, start: nat, v: seq<Qualifier>)
    requires start < |read.output|
    ensures var r := FinishArgs(read, start, v);
      r.Some? && Grows(read, r.value) && |r.value.output| >= start && Finds(r.value.subst, r.value.output[start..])
  {
    var candidate := PushSubst(read, read.output[start..]).value;
    SubstGrows(read, read.output[start..]);
    FinishGrows(candidate, start, v, true);
    GrowsOn(read, candidate, FinishArgs(read, start, v).value);
  }

  lemma BodyGrows(w: Words, s: string, st: State, start: nat, v: seq<Qualifier>)
    requires start == |st.output| && st.cur < |s| && Body(w, s, st, start, v).Some?
    ensures Grows(st, Body(w, s, st, start, v).value)
    ensures (v == [] && Classify(w, s[st.cur], Peek(s, st.cur + 1)).Word?)
      || Finds(Body(w, s, st, start, v).value.subst, Body(w, s, st, start, v).value.output[start..])
    decreases |s| - st.cur, 2
  {
    match Classify(w, s[st.cur], Peek(s, st.cur + 1))
    case Word(text, length) =>
      var read := PushStr(st, text).value.(cur := st.cur + length);
      FinishGrows(read, start, v, true);
    case Arguments =>
      TmplArgsGrow(w, s, st);
      var read := ReadTmplArgs(w, s, st).value;
      ArgumentsGrow(read, start, v);
      GrowsOn(st, read, Body(w, s, st, start, v).value);
    case Name =>
      NameGrows(w, s, st);
      var read := ReadName(w, s, st).value;
      FinishGrows(read, start, v, false);
      GrowsOn(st, read, Body(w, s, st, start, v).value);
    case _ =>
  }
}
