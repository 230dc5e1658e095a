/**
  The request checks in `main` of zos_lineinfile.py (lines 253-261) and the
  declared parameter defaults (lines 181-195). The module's parameters arrive
  as a record; `main` either fails with a message or hands them to the
  "ensure present" or "ensure absent" path, whose line editing is done by the
  z/OS utilities library and is not part of this model.
 */
module LineInFile {
  import opened Wrappers

  datatype State = Present | Absent

  /** The `encoding` option: the code page of the stored text and the one the
      edit works in. */
  datatype Encoding = Encoding(from: string, to: string)

  /** The module's parameters after argument parsing. */
  datatype Params = Params(
    zosdest: string,
    state: State,
    regexp: Option<string>,
    line: Option<string>,
    insertafter: Option<string>,
    insertbefore: Option<string>,
    backrefs: bool,
    backup: bool,
    firstmatch: bool,
    encoding: Encoding)

  const DefaultEncoding: Encoding := Encoding("IBM-1047", "ISO8859-1")

  /** The parameters as declared when only the required `zosdest` is given. */
  function Defaults(zosdest: string): (p: Params)
    ensures p.zosdest == zosdest && p.state == Present
    ensures p.regexp.None? && p.line.None? && p.insertafter.None? && p.insertbefore.None?
    ensures !p.backrefs && !p.backup && !p.firstmatch
    ensures p.encoding.from == "IBM-1047" && p.encoding.to == "ISO8859-1"
  {
    Params(zosdest, Present, None, None, None, None, false, false, false, DefaultEncoding)
  }

  /** The arguments of the call to `present` (line 256). */
  datatype PresentRequest = PresentRequest(
    zosdest: string,
    regexp: Option<string>,
    line: string,
    insertafter: Option<string>,
    insertbefore: Option<string>,
    backup: bool,
    backrefs: bool,
    firstmatch: bool,
    encoding: Encoding)

  /** The arguments of the call to `absent` (line 261). */
  datatype AbsentRequest = AbsentRequest(
    zosdest: string,
    regexp: Option<string>,
    line: Option<string>,
    backup: bool)

  /** What `main` does with a request: `fail_json` (which exits), or one of
      the two edit paths. */
  datatype Outcome =
    | Fail(msg: string)
    | EnsurePresent(present: PresentRequest)
    | EnsureAbsent(absent: AbsentRequest)

  const LineRequiredMessage: string := "line is required with state=present"
  const CriterionRequiredMessage: string := "one of line or regexp is required with state=absent"

  /** The dispatch in `main`. `present` needs a line to put in place; `absent`
      needs a line or a regular expression to look for. */
  function Dispatch(p: Params): (o: Outcome)
    ensures o.Fail? <==> (p.state == Present && p.line.None?) || (p.state == Absent && p.regexp.None? && p.line.None?)
    ensures o.Fail? ==> o.msg == if p.state == Present then LineRequiredMessage else CriterionRequiredMessage
    ensures o.EnsurePresent? <==> p.state == Present && p.line.Some?
    ensures o.EnsureAbsent? <==> p.state == Absent && (p.regexp.Some? || p.line.Some?)
    ensures o.EnsurePresent? ==> Some(o.present.line) == p.line
    ensures o.EnsureAbsent? ==> o.absent.regexp.Some? || o.absent.line.Some?
  {
    match p.state
    case Present =>
      if p.line.None? then Fail(LineRequiredMessage)
      else EnsurePresent(PresentRequest(p.zosdest, p.regexp, p.line.value, p.insertafter,
                                        p.insertbefore, p.backup, p.backrefs, p.firstmatch, p.encoding))
    case Absent =>
      if p.regexp.None? && p.line.None? then Fail(CriterionRequiredMessage)
      else EnsureAbsent(AbsentRequest(p.zosdest, p.regexp, p.line, p.backup))
  }

  /** The edit paths receive the caller's parameters unchanged. */
  lemma DispatchForwardsParams(p: Params)
    ensures Dispatch(p).EnsurePresent? ==>
      var r := Dispatch(p).present;
      && r.zosdest == p.zosdest && r.regexp == p.regexp && Some(r.line) == p.line
      && r.insertafter == p.insertafter && r.insertbefore == p.insertbefore
      && r.backup == p.backup && r.backrefs == p.backrefs && r.firstmatch == p.firstmatch
      && r.encoding == p.encoding
    ensures Dispatch(p).EnsureAbsent? ==>
      var r := Dispatch(p).absent;
      && r.zosdest == p.zosdest && r.regexp == p.regexp && r.line == p.line && r.backup == p.backup
  {
  }

  /** Whether `main` fails depends only on the state and on which of `line`
      and `regexp` are given, never on their text or on the other options. */
  lemma FailureDependsOnlyOnPresence(p: Params, q: Params)
    requires p.state == q.state
    requires p.line.Some? == q.line.Some? && p.regexp.Some? == q.regexp.Some?
    ensures Dispatch(p).Fail? <==> Dispatch(q).Fail?
    ensures Dispatch(p).Fail? ==> Dispatch(p) == Dispatch(q)
  {
  }

  /** Giving a `line` is always enough to pass the checks. */
  lemma LineSuffices(p: Params)
    requires p.line.Some?
    ensures !Dispatch(p).Fail?
  {
  }

  /** With only `zosdest` given, the default state `present` has no line and
      the request fails; adding a line sends it to the present path with the
      declared defaults: no regexp, no placement, no backup, backrefs and
      firstmatch off, and IBM-1047 to ISO8859-1. */
  lemma DefaultsDispatch(zosdest: string, line: string)
    ensures Dispatch(Defaults(zosdest)) == Fail(LineRequiredMessage)
    ensures Dispatch(Defaults(zosdest).(line := Some(line))) ==
      EnsurePresent(PresentRequest(zosdest, None, line, None, None, false, false, false,
                                   Encoding("IBM-1047", "ISO8859-1")))
    ensures Dispatch(Defaults(zosdest).(state := Absent)) == Fail(CriterionRequiredMessage)
  {
  }
}
