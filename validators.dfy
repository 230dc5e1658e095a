/**
  The two argument validators of zos_lineinfile.py: `data_set_or_path_type`
  (lines 267-279) and `encoding_type` (lines 281-286). Each either returns its
  argument unchanged or raises `ValueError`; a raised exception is an `Err`.
 */
module Validators {
  import opened Wrappers
  import opened Chars
  import opened DataSetName

  /** The Python exceptions the validators can raise. */
  datatype Error =
    | ValueError(message: string)
    | NameError(name: string)

  // ---------------------------------------------------------------------------
  // data_set_or_path_type

  /** `os.path.isabs` on z/OS UNIX (POSIX): the path starts with a slash. */
  predicate IsAbsolutePath(s: string)
    ensures IsAbsolutePath(s) <==> "/" <= s
  {
    |s| > 0 && s[0] == '/'
  }

  function InvalidDestinationMessage(contents: string): string {
    "Invalid argument type for \"" + contents + "\". expected \"data_set\" or \"path\""
  }

  /** Accepts a data set name or, failing that, an absolute path, and returns
      it unchanged; raises `ValueError` for anything else. */
  function DataSetOrPathType(contents: string): (r: Result<string, Error>)
    ensures r.Ok? <==> IsDataSetName(contents) || IsAbsolutePath(contents)
    ensures r.Ok? ==> r.value == contents
    ensures r.Err? ==> r.error == ValueError(InvalidDestinationMessage(contents))
  {
    MatchesIff(contents);
    if !Matches(contents) && !IsAbsolutePath(contents) then
      Err(ValueError(InvalidDestinationMessage(contents)))
    else
      Ok(contents)
  }

  /** The function as written calls `path.isabs`, but no `path` is bound in
      the module (only `os` is imported), so every string that is not a data
      set name raises `NameError` instead of being checked as a path. */
  function DataSetOrPathTypeAsWritten(contents: string): (r: Result<string, Error>)
    ensures r.Ok? <==> IsDataSetName(contents)
    ensures r.Ok? ==> r.value == contents
    ensures r.Err? ==> r.error == NameError("path")
  {
    MatchesIff(contents);
    if !Matches(contents) then Err(NameError("path")) else Ok(contents)
  }

  /** An absolute path is refused as written and accepted once the call is
      `os.path.isabs`. */
  lemma AsWrittenRaisesOnAbsolutePath()
    ensures DataSetOrPathTypeAsWritten("/etc/profile") == Err(NameError("path"))
    ensures DataSetOrPathType("/etc/profile") == Ok("/etc/profile")
  {
    SingleQualifierRejected("/etc/profile");
  }

  /** The two agree on every data set name; they differ only on strings that
      are not one. */
  lemma AsWrittenAgreesOnDataSetNames(contents: string)
    ensures IsDataSetName(contents) ==> DataSetOrPathTypeAsWritten(contents) == DataSetOrPathType(contents)
    ensures !IsDataSetName(contents) ==> DataSetOrPathTypeAsWritten(contents).Err?
  {
  }

  /** The validator is the identity on what it accepts, hence idempotent. */
  lemma DataSetOrPathTypeIdempotent(contents: string)
    requires DataSetOrPathType(contents).Ok?
    ensures DataSetOrPathType(DataSetOrPathType(contents).value) == Ok(contents)
  {
  }

  /** A single undotted qualifier is no data set name: it passes only as an
      absolute path. */
  lemma UndottedAcceptedOnlyAsPath(contents: string)
    requires '.' !in contents
    ensures DataSetOrPathType(contents).Ok? <==> IsAbsolutePath(contents)
  {
    SingleQualifierRejected(contents);
    MatchesIff(contents);
  }

  /** Upper- or lower-casing never changes the verdict. */
  lemma DataSetOrPathTypeIgnoresCase(contents: string)
    ensures DataSetOrPathType(Upper(contents)).Ok? <==> DataSetOrPathType(contents).Ok?
    ensures DataSetOrPathType(Lower(contents)).Ok? <==> DataSetOrPathType(contents).Ok?
  {
    MatchesIgnoresCase(contents);
    MatchesIff(contents);
    MatchesIff(Upper(contents));
    MatchesIff(Lower(contents));
  }

  /** A member of a partitioned data set is accepted. */
  lemma MemberNameAccepted()
    ensures DataSetOrPathType("USER.TEST.LIB(MEM1)") == Ok("USER.TEST.LIB(MEM1)")
  {
    SampleMemberNameMatches();
  }

  lemma SampleMemberNameMatches()
    ensures Matches("USER.TEST.LIB(MEM1)")
  {
    var n := Name(["USER", "TEST", "LIB"], Some("MEM1"));
    SampleMemberNameRenders();
    SampleMemberNameWellFormed();
    ParseRender(n);
  }

  lemma SampleMemberNameRenders()
    ensures Render(Name(["USER", "TEST", "LIB"], Some("MEM1"))) == "USER.TEST.LIB(MEM1)"
  {
    JoinCons("TEST", ["LIB"]);
    JoinCons("USER", ["TEST", "LIB"]);
  }

  lemma SampleMemberNameWellFormed()
    ensures WellFormed(Name(["USER", "TEST", "LIB"], Some("MEM1")))
  {
    assert IsName("USER") && IsName("TEST") && IsName("LIB") && IsName("MEM1");
  }

  /** A lower-case sequential data set name is accepted. */
  lemma LowerCaseNameAccepted()
    ensures DataSetOrPathType("user.test") == Ok("user.test")
  {
    var n := Name(["user", "test"], None);
    JoinCons("user", ["test"]);
    assert Render(n) == "user.test";
    assert IsName("user") && IsName("test");
    assert WellFormed(n);
    ParseRender(n);
    assert Matches("user.test");
  }

  /** A qualifier must begin with a letter. */
  lemma LeadingDigitRejected()
    ensures DataSetOrPathType("1A.B").Err?
  {
    MatchesIff("1A.B");
    if Matches("1A.B") {
      NoEmptyQualifier("1A.B");
      assert false;
    }
  }

  /** Doubled dots and a lone qualifier are refused. */
  lemma MalformedNamesRejected()
    ensures DataSetOrPathType("A..B").Err?
    ensures DataSetOrPathType("ABC").Err?
  {
    EmptyQualifierRejected("A..B", 1);
    MatchesIff("A..B");
    SingleQualifierRejected("ABC");
    MatchesIff("ABC");
  }

  // ---------------------------------------------------------------------------
  // encoding_type

  const MinEncodingLength: nat := 2

  /** What `[A-Z0-9-]` matches under `re.IGNORECASE`. */
  predicate IsEncodingChar(c: char) {
    IsAlnum(c) || c == '-'
  }

  /** Recogniser for `[A-Z0-9-]*`. */
  function AllEncodingChars(s: string): (b: bool)
    ensures b <==> forall i :: 0 <= i < |s| ==> IsEncodingChar(s[i])
  {
    if |s| == 0 then true
    else IsEncodingChar(s[0]) && AllEncodingChars(s[1..])
  }

  function InvalidEncodingMessage(contents: string): string {
    "Invalid argument type for \"" + contents + "\". expected \"encoding\""
  }

  /** Accepts a name of at least two letters, digits or dashes and returns it
      unchanged; raises `ValueError` for anything else. */
  function EncodingType(contents: string): (r: Result<string, Error>)
    ensures r.Ok? <==> |contents| >= MinEncodingLength && forall i :: 0 <= i < |contents| ==> IsEncodingChar(contents[i])
    ensures r.Ok? ==> r.value == contents
    ensures r.Err? ==> r.error == ValueError(InvalidEncodingMessage(contents))
  {
    if |contents| >= MinEncodingLength && AllEncodingChars(contents) then Ok(contents)
    else Err(ValueError(InvalidEncodingMessage(contents)))
  }

  lemma EncodingTypeIdempotent(contents: string)
    requires EncodingType(contents).Ok?
    ensures EncodingType(EncodingType(contents).value) == Ok(contents)
  {
  }

  /** The empty string and every one-character string are refused. */
  lemma EncodingTooShortRejected(contents: string)
    requires |contents| < MinEncodingLength
    ensures EncodingType(contents) == Err(ValueError(InvalidEncodingMessage(contents)))
  {
  }

  /** The verdict depends only on the class of each character. */
  lemma EncodingTypeShape(s: string, t: string)
    requires SameShape(s, t)
    ensures EncodingType(s).Ok? <==> EncodingType(t).Ok?
  {
    forall i | 0 <= i < |s| ensures IsEncodingChar(s[i]) <==> IsEncodingChar(t[i]) {
      assert ClassOf(s[i]) == ClassOf(t[i]);
    }
  }

  /** Upper- or lower-casing never changes the verdict. */
  lemma EncodingTypeIgnoresCase(contents: string)
    ensures EncodingType(Upper(contents)).Ok? <==> EncodingType(contents).Ok?
    ensures EncodingType(Lower(contents)).Ok? <==> EncodingType(contents).Ok?
  {
    EncodingTypeShape(contents, Upper(contents));
    EncodingTypeShape(contents, Lower(contents));
  }

  /** The default code pages pass. */
  lemma DefaultEncodingsAccepted()
    ensures EncodingType("IBM-1047") == Ok("IBM-1047")
    ensures EncodingType("ISO8859-1") == Ok("ISO8859-1")
  {
    IbmDefaultAccepted();
    IsoDefaultAccepted();
  }

  lemma IbmDefaultAccepted()
    ensures AllEncodingChars("IBM-1047")
  {
    assert AllEncodingChars("1047");
  }

  lemma IsoDefaultAccepted()
    ensures AllEncodingChars("ISO8859-1")
  {
    assert AllEncodingChars("59-1");
  }

  /** An underscore is not an encoding-name character. */
  lemma UnderscoreRejected()
    ensures EncodingType("UTF_8").Err?
  {
    assert !IsEncodingChar("UTF_8"[3]);
  }
}
