/**
  The z/OS data set name pattern that `data_set_or_path_type` tries first
  (zos_lineinfile.py:269), matched with `re.fullmatch` and `re.IGNORECASE`:

    (?:[A-Z][A-Z0-9]{0,7}[.]){1,21}[A-Z][A-Z0-9]{0,7}(?:\([A-Z][A-Z0-9]{0,7}\))?

  The language of the pattern is given declaratively (`Name`, `WellFormed`,
  `Render`, `IsDataSetName`); `Parse` is a hand-written recogniser, and the two
  are proved to agree in both directions.
 */
module DataSetName {
  import opened Wrappers
  import opened Chars

  const MinQualifiers: nat := 2
  const MaxQualifiers: nat := 22
  const MaxNameLength: nat := 8

  /** One qualifier or member name: `[A-Z][A-Z0-9]{0,7}`. */
  predicate IsName(s: string) {
    && 1 <= |s| <= MaxNameLength
    && IsLetter(s[0])
    && forall i :: 1 <= i < |s| ==> IsAlnum(s[i])
  }

  /** A data set name taken apart: its dot-separated qualifiers and the
      optional parenthesised member name that ends it. */
  datatype Name = Name(qualifiers: seq<string>, member: Option<string>)

  predicate WellFormed(n: Name) {
    && MinQualifiers <= |n.qualifiers| <= MaxQualifiers
    && (forall i :: 0 <= i < |n.qualifiers| ==> IsName(n.qualifiers[i]))
    && (n.member.Some? ==> IsName(n.member.value))
  }

  /** The qualifiers written out with single dots between them. */
  function Join(qs: seq<string>): string {
    if |qs| == 0 then []
    else if |qs| == 1 then qs[0]
    else qs[0] + "." + Join(qs[1..])
  }

  /** The member written out in parentheses, or nothing. */
  function MemberSuffix(member: Option<string>): string {
    match member
    case None => ""
    case Some(m) => "(" + m + ")"
  }

  function Render(n: Name): string {
    Join(n.qualifiers) + MemberSuffix(n.member)
  }

  /** The strings the pattern at zos_lineinfile.py:269 accepts. */
  ghost predicate IsDataSetName(s: string) {
    exists n :: WellFormed(n) && Render(n) == s
  }

  // ---------------------------------------------------------------------------
  // The recogniser

  /** Index of the first `(` in `s`, or `|s|` when there is none. */
  function FirstOpen(s: string): (k: nat)
    ensures k <= |s|
    ensures k < |s| ==> s[k] == '('
    ensures forall i :: 0 <= i < k ==> s[i] != '('
  {
    if |s| == 0 || s[0] == '(' then 0 else 1 + FirstOpen(s[1..])
  }

  /** Splits `s` at every dot, like Python's `s.split('.')`. */
  function Split(s: string): (parts: seq<string>)
    ensures |parts| >= 1
    ensures forall i :: 0 <= i < |parts| ==> '.' !in parts[i]
  {
    if |s| == 0 then [[]] else SplitStep(s[0], Split(s[1..]))
  }

  /** Puts character `c` in front of the parts of what follows it: a dot
      starts a new, empty part; anything else extends the first part. */
  function SplitStep(c: char, rest: seq<string>): (parts: seq<string>)
    requires |rest| >= 1
  {
    if c == '.' then [[]] + rest else [[c] + rest[0]] + rest[1..]
  }

  /** Recognises the pattern: everything before the first `(` must split at
      its dots into 2 to 22 names, and whatever follows that `(` must be one
      name closed by a final `)`. */
  function Parse(s: string): (r: Option<Name>)
    ensures r.Some? ==> WellFormed(r.value)
  {
    var k := FirstOpen(s);
    if k < |s| && (|s| < k + 2 || s[|s| - 1] != ')') then None
    else ParseParts(s[..k], if k < |s| then Some(s[k + 1..|s| - 1]) else None)
  }

  /** Checks the qualifiers before the member and the member itself. */
  function ParseParts(body: string, member: Option<string>): Option<Name> {
    var n := Name(Split(body), member);
    if WellFormed(n) then Some(n) else None
  }

  /** The data set name check of `data_set_or_path_type`. */
  predicate Matches(s: string) {
    Parse(s).Some?
  }

  // ---------------------------------------------------------------------------
  // Join and Split

  lemma {:induction false} JoinPrepend(c: char, qs: seq<string>)
    requires |qs| >= 1
    ensures Join([[c] + qs[0]] + qs[1..]) == [c] + Join(qs)
  {
    if |qs| == 1 {
      assert [[c] + qs[0]] + qs[1..] == [[c] + qs[0]];
      assert Join(qs) == qs[0];
    } else {
      var q, rest := qs[0], qs[1..];
      assert [q] + rest == qs;
      JoinCons([c] + q, rest);
      JoinCons(q, rest);
      assert ([c] + q) + "." + Join(rest) == [c] + (q + "." + Join(rest));
    }
  }

  /** Joining the parts of a split gives back the string. */
  lemma {:induction false} JoinSplit(s: string)
    ensures Join(Split(s)) == s
  {
    if |s| > 0 {
      var rest := Split(s[1..]);
      JoinSplit(s[1..]);
      if s[0] == '.' {
        assert ([[]] + rest)[1..] == rest;
      } else {
        JoinPrepend(s[0], rest);
      }
    }
  }

  lemma {:induction false} JoinCons(q: string, qs: seq<string>)
    requires |qs| >= 1
    ensures Join([q] + qs) == q + "." + Join(qs)
  {
    assert ([q] + qs)[1..] == qs;
  }

  /** Splitting a dot-free string yields that string alone. */
  lemma {:induction false} SplitNoDot(s: string)
    requires '.' !in s
    ensures Split(s) == [s]
  {
    if |s| > 0 {
      SplitNoDot(s[1..]);
      assert [s[0]] + s[1..] == s;
    }
  }

  /** Splitting `q.t` with a dot-free `q` yields `q` followed by the parts of `t`. */
  lemma {:induction false} SplitAfterDot(q: string, t: string)
    requires '.' !in q
    ensures Split(q + "." + t) == [q] + Split(t)
  {
    if |q| == 0 {
      assert q + "." + t == ['.'] + t;
      assert (q + "." + t)[1..] == t;
    } else {
      var s := q + "." + t;
      assert s[1..] == q[1..] + "." + t;
      SplitAfterDot(q[1..], t);
      assert [q[0]] + q[1..] == q;
    }
  }

  /** Split undoes Join on dot-free qualifiers. */
  lemma {:induction false} SplitJoin(qs: seq<string>)
    requires |qs| >= 1
    requires forall i :: 0 <= i < |qs| ==> '.' !in qs[i]
    ensures Split(Join(qs)) == qs
  {
    if |qs| == 1 {
      SplitNoDot(qs[0]);
    } else {
      SplitJoin(qs[1..]);
      SplitAfterDot(qs[0], Join(qs[1..]));
      assert [qs[0]] + qs[1..] == qs;
    }
  }

  // ---------------------------------------------------------------------------
  // Character-level shape of joined qualifiers

  /** Position `i` of `s` holds a dot with a name character on its left and
      the first letter of the next name on its right. */
  predicate DotBetweenNames(s: string, i: int) {
    0 < i < |s| - 1 && s[i] == '.' && IsAlnum(s[i - 1]) && IsLetter(s[i + 1])
  }

  /** What a dot-joined list of names looks like character by character. */
  predicate DottedNames(s: string) {
    && |s| > 0
    && IsLetter(s[0])
    && IsAlnum(s[|s| - 1])
    && forall i :: 0 <= i < |s| ==> IsAlnum(s[i]) || DotBetweenNames(s, i)
  }

  /** Prefixing a name and a dot keeps the dotted-names shape. */
  lemma DottedCons(q: string, rest: string)
    requires IsName(q) && DottedNames(rest)
    ensures DottedNames(q + "." + rest)
  {
    var s := q + "." + rest;
    forall i | 0 <= i < |s| ensures IsAlnum(s[i]) || DotBetweenNames(s, i) {
      if i < |q| {
        assert s[i] == q[i];
      } else if i == |q| {
        assert s[i - 1] == q[|q| - 1] && s[i + 1] == rest[0];
      } else {
        var j := i - |q| - 1;
        assert s[i] == rest[j];
        if !IsAlnum(rest[j]) {
          assert s[i - 1] == rest[j - 1] && s[i + 1] == rest[j + 1];
        }
      }
    }
  }

  lemma {:induction false} JoinDottedNames(qs: seq<string>)
    requires |qs| >= 1
    requires forall i :: 0 <= i < |qs| ==> IsName(qs[i])
    ensures DottedNames(Join(qs))
  {
    assert IsName(qs[0]);
    if |qs| == 1 {
      assert Join(qs) == qs[0];
      assert forall i :: 0 <= i < |qs[0]| ==> IsAlnum(qs[0][i]);
    } else {
      JoinDottedNames(qs[1..]);
      DottedCons(qs[0], Join(qs[1..]));
    }
  }

  /** Dot-free parts joined with dots have one dot fewer than parts. */
  lemma {:induction false} JoinDotCount(qs: seq<string>)
    requires |qs| >= 1
    requires forall i :: 0 <= i < |qs| ==> '.' !in qs[i]
    ensures multiset(Join(qs))['.'] == |qs| - 1
  {
    assert '.' !in qs[0];
    if |qs| > 1 {
      JoinDotCount(qs[1..]);
      assert multiset(qs[0] + "." + Join(qs[1..])) == multiset(qs[0]) + multiset{'.'} + multiset(Join(qs[1..]));
    }
  }

  lemma NamesHaveNoDot(qs: seq<string>)
    requires forall i :: 0 <= i < |qs| ==> IsName(qs[i])
    ensures forall i :: 0 <= i < |qs| ==> '.' !in qs[i]
  {
    forall i | 0 <= i < |qs| ensures '.' !in qs[i] {
      assert IsName(qs[i]);
    }
  }

  lemma DottedNamesHaveNoOpen(b: string)
    requires DottedNames(b)
    ensures '(' !in b
  {
    forall i | 0 <= i < |b| ensures b[i] != '(' {
      assert IsAlnum(b[i]) || b[i] == '.';
    }
  }

  lemma {:induction false} FirstOpenAfter(b: string, t: string)
    requires '(' !in b
    ensures FirstOpen(b + t) == |b| + FirstOpen(t)
  {
    if |b| > 0 {
      assert (b + t)[1..] == b[1..] + t;
      FirstOpenAfter(b[1..], t);
    } else {
      assert b + t == t;
    }
  }

  // ---------------------------------------------------------------------------
  // The recogniser agrees with the pattern

  /** Whatever Parse returns renders back to its input. */
  lemma ParseSound(s: string)
    requires Parse(s).Some?
    ensures Render(Parse(s).value) == s
  {
    var k := FirstOpen(s);
    JoinSplit(s[..k]);
    if k < |s| {
      assert s == s[..k] + "(" + s[k + 1..|s| - 1] + ")";
    } else {
      assert s[..k] == s;
    }
  }

  /** Parse recovers every well-formed name from its rendering. */
  lemma ParseRender(n: Name)
    requires WellFormed(n)
    ensures Parse(Render(n)) == Some(n)
  {
    var body := Join(n.qualifiers);
    JoinDottedNames(n.qualifiers);
    DottedNamesHaveNoOpen(body);
    ParseWithSuffix(body, n.member);
    NamesHaveNoDot(n.qualifiers);
    SplitJoin(n.qualifiers);
  }

  /** With no `(` before it, a parenthesised suffix is read as the member and
      everything before it is split at the dots. */
  lemma ParseWithSuffix(body: string, member: Option<string>)
    requires '(' !in body
    ensures Parse(body + MemberSuffix(member)) == ParseParts(body, member)
  {
    match member {
      case None =>
        assert body + MemberSuffix(member) == body;
        ParseWithoutMember(body);
      case Some(m) =>
        assert body + MemberSuffix(member) == body + "(" + m + ")";
        ParseWithMember(body, m);
    }
  }

  lemma ParseWithoutMember(body: string)
    requires '(' !in body
    ensures Parse(body) == ParseParts(body, None)
  {
    FirstOpenAfter(body, []);
    assert body + [] == body;
    assert body[..|body|] == body;
  }

  lemma ParseWithMember(body: string, m: string)
    requires '(' !in body
    ensures Parse(body + "(" + m + ")") == ParseParts(body, Some(m))
  {
    var s := body + "(" + m + ")";
    FirstOpenAfter(body, "(" + m + ")");
    assert s == body + ("(" + m + ")");
    var k := FirstOpen(s);
    assert k == |body|;
    assert s[..k] == body;
    assert s[k + 1..|s| - 1] == m;
  }

  /** The recogniser accepts exactly the language of the pattern. */
  lemma MatchesIff(s: string)
    ensures Matches(s) <==> IsDataSetName(s)
  {
    if Matches(s) {
      ParseSound(s);
    }
    if IsDataSetName(s) {
      var n :| WellFormed(n) && Render(n) == s;
      ParseRender(n);
    }
  }

  /** A string has at most one reading as a data set name. */
  lemma RenderInjective(n1: Name, n2: Name)
    requires WellFormed(n1) && WellFormed(n2)
    requires Render(n1) == Render(n2)
    ensures n1 == n2
  {
    ParseRender(n1);
    ParseRender(n2);
  }

  // ---------------------------------------------------------------------------
  // What an accepted string looks like

  /** An accepted string is a dotted list of names, then at most the member. */
  lemma AcceptedParts(s: string)
    requires Matches(s)
    ensures var k := FirstOpen(s);
      && DottedNames(s[..k])
      && multiset(s[..k])['.'] == |Parse(s).value.qualifiers| - 1
      && (k == |s| ==> Parse(s).value.member == None)
      && (k < |s| ==> k + 2 <= |s| && s[|s| - 1] == ')' && IsName(s[k + 1..|s| - 1])
                      && Parse(s).value.member == Some(s[k + 1..|s| - 1]))
  {
    var k := FirstOpen(s);
    var n := Parse(s).value;
    JoinDottedNames(n.qualifiers);
    NamesHaveNoDot(n.qualifiers);
    JoinDotCount(n.qualifiers);
    JoinSplit(s[..k]);
  }

  /** Characters strictly inside a parenthesised name are letters and digits. */
  lemma MemberChars(s: string, k: nat, j: nat)
    requires k < j < |s| - 1
    requires IsName(s[k + 1..|s| - 1])
    ensures IsAlnum(s[j])
  {
    var m := s[k + 1..|s| - 1];
    var x := j - k - 1;
    assert s[j] == m[x];
    if x == 0 {
      assert IsLetter(m[0]);
    } else {
      assert IsAlnum(m[x]);
    }
  }

  /** No qualifier of an accepted string is empty: it starts with a letter and
      every dot sits between a name character and the next name's letter, so
      leading, trailing and doubled dots are all rejected. */
  lemma NoEmptyQualifier(s: string)
    requires Matches(s)
    ensures IsLetter(s[0])
    ensures forall i :: 0 <= i < |s| && s[i] == '.' ==> DotBetweenNames(s, i)
  {
    AcceptedParts(s);
    var k := FirstOpen(s);
    var body := s[..k];
    assert s[0] == body[0];
    forall i | 0 <= i < |s| && s[i] == '.' ensures DotBetweenNames(s, i) {
      if i < k {
        assert s[i] == body[i];
        assert DotBetweenNames(body, i);
        assert s[i - 1] == body[i - 1] && s[i + 1] == body[i + 1];
      } else if i == k || i == |s| - 1 {
        assert false;
      } else {
        MemberChars(s, k, i);
      }
    }
  }

  /** An accepted string has between 2 and 22 qualifiers, one more than it
      has dots. */
  lemma QualifierCount(s: string)
    requires Matches(s)
    ensures |Parse(s).value.qualifiers| == multiset(s)['.'] + 1
    ensures 1 <= multiset(s)['.'] <= MaxQualifiers - 1
  {
    AcceptedParts(s);
    var k := FirstOpen(s);
    var rest := s[k..];
    assert s == s[..k] + rest;
    forall j | 0 <= j < |rest| ensures rest[j] != '.' {
      if 0 < j < |rest| - 1 {
        MemberChars(s, k, k + j);
      }
    }
    assert '.' !in rest;
  }

  /** A string without a dot is never a data set name. */
  lemma SingleQualifierRejected(s: string)
    requires '.' !in s
    ensures !Matches(s)
  {
    if Matches(s) {
      QualifierCount(s);
    }
  }

  /** A dot at the start or the end, or two dots in a row, make an empty
      qualifier, and the string is rejected. */
  lemma EmptyQualifierRejected(s: string, i: nat)
    requires i < |s| && s[i] == '.'
    requires i == 0 || i == |s| - 1 || s[i + 1] == '.'
    ensures !Matches(s)
  {
    if Matches(s) {
      NoEmptyQualifier(s);
      assert false;
    }
  }

  /** At most one member name, and only at the very end: an opening
      parenthesis starts the member, which runs up to the final character, a
      closing parenthesis; no other parenthesis occurs. */
  lemma MemberOnlyAtEnd(s: string)
    requires Matches(s)
    ensures Parse(s).value.member.Some? <==> s[|s| - 1] == ')'
    ensures forall i :: 0 <= i < |s| && s[i] == '(' ==>
              i + 2 <= |s| && s[|s| - 1] == ')' && IsName(s[i + 1..|s| - 1])
              && Parse(s).value.member == Some(s[i + 1..|s| - 1])
    ensures forall i :: 0 <= i < |s| - 1 ==> s[i] != ')'
    ensures forall i, j :: 0 <= i < j < |s| && s[i] == '(' ==> s[j] != '('
  {
    AcceptedParts(s);
    NoEmptyQualifier(s);
    var k := FirstOpen(s);
    var body := s[..k];
    forall i | 0 <= i < |s| - 1 ensures s[i] != ')' && (s[i] == '(' ==> i == k) {
      if i < k {
        assert s[i] == body[i];
        assert IsAlnum(body[i]) || DotBetweenNames(body, i);
      } else if i > k {
        MemberChars(s, k, i);
      }
    }
    if k == |s| {
      assert s == body;
      assert IsAlnum(body[|body| - 1]);
    }
  }

  // ---------------------------------------------------------------------------
  // Case-insensitivity

  lemma {:induction false} FirstOpenShape(s: string, t: string)
    requires SameShape(s, t)
    ensures FirstOpen(s) == FirstOpen(t)
  {
    if |s| > 0 && s[0] != '(' {
      SameShapeSlice(s, t, 1, |s|);
      FirstOpenShape(s[1..], t[1..]);
    }
  }

  lemma SameShapeCons(c: char, d: char, a: string, b: string)
    requires ClassOf(c) == ClassOf(d) && SameShape(a, b)
    ensures SameShape([c] + a, [d] + b)
  {
    var s, t := [c] + a, [d] + b;
    forall i | 0 <= i < |s| ensures ClassOf(s[i]) == ClassOf(t[i]) {
      if i > 0 {
        assert s[i] == a[i - 1] && t[i] == b[i - 1];
      }
    }
  }

  /** Shapes agree part by part. */
  predicate SamePartShapes(ps: seq<string>, pt: seq<string>) {
    |ps| == |pt| && forall i :: 0 <= i < |ps| ==> SameShape(ps[i], pt[i])
  }

  lemma {:induction false} SplitShape(s: string, t: string)
    requires SameShape(s, t)
    ensures SamePartShapes(Split(s), Split(t))
  {
    if |s| > 0 {
      SameShapeSlice(s, t, 1, |s|);
      SplitShape(s[1..], t[1..]);
      SplitStepShape(s[0], t[0], Split(s[1..]), Split(t[1..]));
    }
  }

  lemma SplitStepShape(c: char, d: char, rs: seq<string>, rt: seq<string>)
    requires ClassOf(c) == ClassOf(d)
    requires |rs| >= 1 && SamePartShapes(rs, rt)
    ensures SamePartShapes(SplitStep(c, rs), SplitStep(d, rt))
  {
    var ps, pt := SplitStep(c, rs), SplitStep(d, rt);
    if c == '.' {
      forall i | 0 < i < |ps| ensures SameShape(ps[i], pt[i]) {
        assert ps[i] == rs[i - 1] && pt[i] == rt[i - 1];
      }
    } else {
      SameShapeCons(c, d, rs[0], rt[0]);
      forall i | 0 < i < |ps| ensures SameShape(ps[i], pt[i]) {
        assert ps[i] == rs[i] && pt[i] == rt[i];
      }
    }
  }

  lemma NameShape(a: string, b: string)
    requires SameShape(a, b)
    ensures IsName(a) <==> IsName(b)
  {
  }

  lemma ParsePartsShape(bs: string, bt: string, ms: Option<string>, mt: Option<string>)
    requires SameShape(bs, bt)
    requires ms.Some? == mt.Some?
    requires ms.Some? ==> SameShape(ms.value, mt.value)
    ensures ParseParts(bs, ms).Some? <==> ParseParts(bt, mt).Some?
  {
    SplitShape(bs, bt);
    var qs, qt := Split(bs), Split(bt);
    forall i | 0 <= i < |qs| ensures IsName(qs[i]) <==> IsName(qt[i]) {
      NameShape(qs[i], qt[i]);
    }
    if ms.Some? {
      NameShape(ms.value, mt.value);
    }
  }

  /** Whether a string is a data set name depends only on the class of each
      character, never on which letter or digit stands there. */
  lemma MatchesShape(s: string, t: string)
    requires SameShape(s, t)
    ensures Matches(s) <==> Matches(t)
  {
    FirstOpenShape(s, t);
    var k := FirstOpen(s);
    SameShapeSlice(s, t, 0, k);
    if k < |s| {
      if |s| >= k + 2 {
        assert ClassOf(s[|s| - 1]) == ClassOf(t[|s| - 1]);
        SameShapeSlice(s, t, k + 1, |s| - 1);
        if s[|s| - 1] == ')' {
          ParsePartsShape(s[..k], t[..k], Some(s[k + 1..|s| - 1]), Some(t[k + 1..|s| - 1]));
        }
      }
    } else {
      ParsePartsShape(s[..k], t[..k], None, None);
    }
  }

  /** Data set name matching is case-insensitive. */
  lemma MatchesIgnoresCase(s: string)
    ensures Matches(Upper(s)) <==> Matches(s)
    ensures Matches(Lower(s)) <==> Matches(s)
  {
    MatchesShape(s, Upper(s));
    MatchesShape(s, Lower(s));
  }
}
