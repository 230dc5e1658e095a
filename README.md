# zos_lineinfile argument checks, in Dafny

`zos_lineinfile` is an Ansible module for z/OS. It ensures that a line is
present in, or absent from, a USS file or a data set member. The line editing
itself is done by the z/OS utilities library (`Datasets.datasets_ensure_line_present`
and `Datasets.datasets_ensure_line_absent`). The module's own logic is argument
checking, and that is what this project models and proves:

- `data_set_or_path_type` accepts a destination that is a z/OS data set name
  (2 to 22 dot-separated qualifiers of 1 to 8 characters, each starting with
  a letter, optionally followed by one parenthesised member name), or failing
  that an absolute path, and returns it unchanged. Anything else raises
  `ValueError`.
- `encoding_type` accepts a code page name of at least two letters, digits or
  dashes and returns it unchanged. Anything else raises `ValueError`.
- `main` fails when `state=present` comes without `line`, or when
  `state=absent` comes with neither `line` nor `regexp`. Otherwise it hands the
  parameters to the present or the absent path.

Files:

- `wrappers.dfy`: `Option` and `Result`. A raised exception is an `Err`.
- `chars.dfy` (module `Chars`): the character classes of the two patterns
  under `re.IGNORECASE`. `[A-Z]` then matches the 52 ASCII letters and four
  more: U+0130, U+0131, U+017F and U+212A, whose simple case mapping is an
  ASCII letter. It also holds ASCII upper- and lower-casing.
- `data_set_name.dfy` (module `DataSetName`): the data set name pattern.
  `IsDataSetName` gives its language declaratively: some well-formed `Name`
  renders to the string. `Parse` is a hand-written recogniser. It finds the
  first `(`, splits what precedes it at the dots and checks each part. The
  two are proved equal both ways.
- `validators.dfy` (module `Validators`): the two validators, with lemmas
  about them.
- `line_in_file.dfy` (module `LineInFile`): the parameter record with its
  declared defaults, and the dispatch in `main`.

Notes on the source, followed here:

- `data_set_or_path_type` calls `path.isabs`. Only `os` is imported, so that
  name is unbound (see Findings). The model uses `os.path.isabs`. On z/OS
  UNIX this is POSIX: the string starts with `/`.
- `main` uses several names that are never bound. "## Left out" lists them,
  with what the model uses in their place.
- The module documentation describes regex replacement, backreferences and
  insertion points. None of that is implemented in this file, so none of it
  is modelled.

## Model

| member | source | states |
|---|---|---|
| `DataSetName.Parse` | plugins/modules/zos_lineinfile.py:268-272 | the hand-written recogniser for the `re.fullmatch` test: it takes the text before the first `(` as dot-separated qualifiers and the text between that `(` and a final `)` as the member; anything it returns is a well-formed name (2 to 22 qualifiers and an optional member, each a letter followed by at most 7 letters or digits) |
| `DataSetName.ParseSound` | plugins/modules/zos_lineinfile.py:268-272 | whatever the recogniser returns renders back to exactly its input |
| `DataSetName.ParseRender` | plugins/modules/zos_lineinfile.py:268-272 | every well-formed name is accepted, and the recogniser recovers exactly its qualifiers and member from its rendering |
| `DataSetName.MatchesIff` | plugins/modules/zos_lineinfile.py:268-272 | the recogniser accepts a string if and only if the pattern's language contains it |
| `DataSetName.RenderInjective` | plugins/modules/zos_lineinfile.py:269 | a string reads as a data set name in at most one way |
| `DataSetName.Split` | plugins/modules/zos_lineinfile.py:269 | there is at least one part between the dots, and no part contains a dot |
| `DataSetName.JoinSplit` | plugins/modules/zos_lineinfile.py:269 | joining the parts of a split with single dots gives back the input |
| `DataSetName.SplitJoin` | plugins/modules/zos_lineinfile.py:269 | splitting dot-free qualifiers joined with dots gives back the same qualifiers |
| `DataSetName.JoinDottedNames` | plugins/modules/zos_lineinfile.py:269 | names joined with dots start with a letter, end with a letter or digit, and have each dot between a name character and a letter |
| `DataSetName.JoinDotCount` | plugins/modules/zos_lineinfile.py:269 | dot-free parts joined with dots contain exactly one dot fewer than there are parts |
| `DataSetName.QualifierCount` | plugins/modules/zos_lineinfile.py:269 | an accepted string has between 1 and 21 dots and one more qualifier than dots, so 2 to 22 qualifiers |
| `DataSetName.SingleQualifierRejected` | plugins/modules/zos_lineinfile.py:269 | a string with no dot, such as `ABC`, is never a data set name |
| `DataSetName.NoEmptyQualifier` | plugins/modules/zos_lineinfile.py:269 | an accepted string starts with a letter, and each of its dots has a letter or digit on its left and a letter on its right |
| `DataSetName.EmptyQualifierRejected` | plugins/modules/zos_lineinfile.py:269 | a leading dot, a trailing dot or two dots in a row make the string rejected |
| `DataSetName.MemberOnlyAtEnd` | plugins/modules/zos_lineinfile.py:269 | in an accepted string, a member is present if and only if the string ends with `)`; an `(` opens the only member, which is a valid name running to that final `)`; no other `(` or `)` occurs |
| `DataSetName.MatchesShape` | plugins/modules/zos_lineinfile.py:268-272 | two strings whose characters agree class by class (letter, digit, dot, parenthesis, other) get the same verdict |
| `DataSetName.MatchesIgnoresCase` | plugins/modules/zos_lineinfile.py:271 | upper- or lower-casing a string does not change whether it is a data set name |
| `Chars.IsLetter` | plugins/modules/zos_lineinfile.py:269-271 | what `[A-Z]` matches under `re.IGNORECASE`: a character matches if and only if the character `re` compares in its place is a lower-case ASCII letter. That is the 52 ASCII letters plus U+0130 and U+212A (simple lower-case `i` and `k`) and U+0131 and U+017F (in `re`'s case-equivalence table beside `i` and `s`) |
| `Chars.Upper` | plugins/modules/zos_lineinfile.py:271 | ASCII upper-casing keeps the length and the class of every character |
| `Chars.Lower` | plugins/modules/zos_lineinfile.py:271 | ASCII lower-casing keeps the length and the class of every character |
| `Validators.IsAbsolutePath` | plugins/modules/zos_lineinfile.py:273 | `os.path.isabs` on z/OS UNIX (POSIX): true if and only if the string starts with `/` |
| `Validators.DataSetOrPathType` | plugins/modules/zos_lineinfile.py:267-279 | the result is `Ok` if and only if the input is a data set name or an absolute path; an `Ok` result equals the input; otherwise the error is `ValueError` with the source's message |
| `Validators.DataSetOrPathTypeAsWritten` | plugins/modules/zos_lineinfile.py:273 | as written, only data set names are accepted; every other input raises `NameError` for `path` |
| `Validators.AsWrittenRaisesOnAbsolutePath` | plugins/modules/zos_lineinfile.py:273 | `/etc/profile` raises `NameError` as written but is accepted with `os.path.isabs` |
| `Validators.AsWrittenAgreesOnDataSetNames` | plugins/modules/zos_lineinfile.py:268-279 | as written and corrected agree on every data set name; on every other string, the as-written version fails |
| `Validators.DataSetOrPathTypeIdempotent` | plugins/modules/zos_lineinfile.py:279 | an accepted value is accepted again and returned unchanged |
| `Validators.UndottedAcceptedOnlyAsPath` | plugins/modules/zos_lineinfile.py:268-278 | a string without a dot is accepted if and only if it is an absolute path |
| `Validators.DataSetOrPathTypeIgnoresCase` | plugins/modules/zos_lineinfile.py:271-273 | upper- or lower-casing the destination never changes whether it is accepted |
| `Validators.MemberNameAccepted` | plugins/modules/zos_lineinfile.py:269 | `USER.TEST.LIB(MEM1)` is accepted unchanged |
| `Validators.LowerCaseNameAccepted` | plugins/modules/zos_lineinfile.py:269-271 | `user.test` is accepted unchanged |
| `Validators.LeadingDigitRejected` | plugins/modules/zos_lineinfile.py:269 | `1A.B` is rejected, because a qualifier must start with a letter |
| `Validators.MalformedNamesRejected` | plugins/modules/zos_lineinfile.py:269-278 | `A..B` and `ABC` are rejected |
| `Validators.AllEncodingChars` | plugins/modules/zos_lineinfile.py:282 | the scan succeeds if and only if every character is a letter, a digit or `-` |
| `Validators.EncodingType` | plugins/modules/zos_lineinfile.py:281-286 | the result is `Ok` if and only if the input has at least two characters, all of them letters, digits or `-`; an `Ok` result equals the input; otherwise the error is `ValueError` with the source's message |
| `Validators.EncodingTypeIdempotent` | plugins/modules/zos_lineinfile.py:286 | an accepted encoding name is accepted again and returned unchanged |
| `Validators.EncodingTooShortRejected` | plugins/modules/zos_lineinfile.py:282-285 | the empty string and every one-character string raise `ValueError` |
| `Validators.EncodingTypeShape` | plugins/modules/zos_lineinfile.py:282 | two strings whose characters agree class by class get the same verdict |
| `Validators.EncodingTypeIgnoresCase` | plugins/modules/zos_lineinfile.py:282 | upper- or lower-casing never changes whether an encoding name is accepted |
| `Validators.DefaultEncodingsAccepted` | plugins/modules/zos_lineinfile.py:194 | the default code pages `IBM-1047` and `ISO8859-1` pass the encoding check |
| `Validators.UnderscoreRejected` | plugins/modules/zos_lineinfile.py:282 | `UTF_8` is rejected |
| `LineInFile.Dispatch` | plugins/modules/zos_lineinfile.py:253-261 | the request fails if and only if it is `present` without a line, or `absent` with neither line nor regexp, each with its own message; it takes the present path if and only if the state is present and a line is given; it takes the absent path if and only if the state is absent and a line or regexp is given; the present path always gets a line, and the absent path always gets a line or a regexp |
| `LineInFile.DispatchForwardsParams` | plugins/modules/zos_lineinfile.py:256-261 | the edit paths receive the destination and every option exactly as given |
| `LineInFile.FailureDependsOnlyOnPresence` | plugins/modules/zos_lineinfile.py:253-260 | whether the request fails, and with which message, depends only on the state and on which of `line` and `regexp` are given |
| `LineInFile.LineSuffices` | plugins/modules/zos_lineinfile.py:253-261 | a request that gives a line never fails these checks |
| `LineInFile.Defaults` | plugins/modules/zos_lineinfile.py:181-195 | the declared defaults when only `zosdest` is given: state `present`; no `regexp`, `line`, `insertafter` or `insertbefore`; `backrefs`, `backup` and `firstmatch` false; encoding from `IBM-1047` to `ISO8859-1` |
| `LineInFile.DefaultsDispatch` | plugins/modules/zos_lineinfile.py:181-195 | with only the destination given, the request fails for lack of a line, and also fails once the state is set to absent; with a line added, it goes to the present path with no regexp, no placement, backup, backrefs and firstmatch off, and `IBM-1047` to `ISO8859-1` |

## Findings

| source | as written | input that shows it | evidently intended | confidence | as-written member | corrected member |
|---|---|---|---|---|---|---|
| plugins/modules/zos_lineinfile.py:273 | `path.isabs(...)`, but the module imports only `os`, so `path` is unbound. Once the module compiles (see "## Left out" for the syntax errors, and for `main()` being called before the validator is defined), every string that is not a data set name raises `NameError` here | `/etc/profile` | `os.path.isabs(...)`, accepting absolute paths | high; not executed | `Validators.DataSetOrPathTypeAsWritten`, `Validators.AsWrittenRaisesOnAbsolutePath` | `Validators.DataSetOrPathType`, `Validators.IsAbsolutePath` |

## Left out

- Line editing. Replacing the last match, expanding backreferences, placing lines by `insertafter`/`insertbefore`, `firstmatch`, and removing lines all happen inside the z/OS utilities library (`Datasets.datasets_ensure_line_present` and `datasets_ensure_line_absent`). That library is not part of this model. The model stops at the `PresentRequest` or `AbsentRequest` that would be passed to it.
- The `present` and `absent` wrappers (lines 289-303) are not modelled. Each turns the file type into a flag and calls the library. As written, `present` never reaches the library: its call at line 296 passes `insertAfter`, `insertBefore`, `firstMatch` and `backref`, but its parameters (lines 289-290) are named `ins_aft`, `ins_bef`, `firstmatch` and `backrefs`. So evaluating the arguments raises `NameError`. In `absent`, the library call is indented under the `else` branch, so it runs only for data sets and not for USS files.
- File-type detection (`ds_utils.get_data_set_type`, line 252) is not part of this model. As written it also raises `NameError`, because `ds_utils` is never imported (lines 169-177).
- Dispatch: `main` reads the state from `new_params` (line 253), passes `path` to `absent` (line 261) and passes `encoding` to `present` (line 257). None of these three names is bound. The model uses the parsed `state`, `zosdest` and `encoding` parameters in their place. The call to `AnsibleModule(...)` (lines 180-197) ends in `),` with a trailing comma, so `module` is bound to a one-element tuple. Then `module.params` (line 242) and both `module.fail_json` calls (lines 255 and 260) would raise `AttributeError`. The model reads `module` as the `AnsibleModule` object, so its `Fail(msg)` outcome is the intended `fail_json` call. `arg_defs` declares the key `regex` (line 208), but `main` reads `params['regexp']` (line 247). The model takes `regexp` to be the declared option (line 184) under that one name.
- The module as written does not compile. It has full-width commas at lines 201 and 226 and a missing comma at lines 216-217. It also calls `main()` at lines 264-265, before `data_set_or_path_type` and `encoding_type` are defined. The model follows the evident intent of each function on its own.
- Argument parsing by `AnsibleModule` and `BetterArgParser` (lines 180-242) is not modelled. This includes the `choices` check on `state` (the model's `State` has only the two allowed values), the `insertafter`/`insertbefore` exclusion, the `backrefs` dependency, the unbound `regex_type` and `eof_tbd`, and the syntax errors at lines 201, 216-217 and 226. The model keeps only the declared defaults. `encoding_type` is modelled on its own, because `arg_defs` never uses it: `encoding` is declared as a plain `dict`.
- Backups and code-page conversion are I/O done by the library, so they are not modelled.
- The validators' unused `dependencies` argument is dropped. `str(contents)` is taken to be the string itself.
- Python's general `re` engine is not modelled. Only the two fixed patterns are, as hand-written recognisers.
- MatchesIgnoresCase: `Upper` and `Lower` are ASCII case mappings. Python's `str.upper` and `str.lower` also map other Unicode characters, and some of those change length (`'ﬁ'.upper()` is `FI`). Such a mapping can turn a rejected string into an accepted one, so the lemma covers only the ASCII mappings. `MatchesShape` states the general fact: only each character's class matters.
- DataSetOrPathTypeIgnoresCase and EncodingTypeIgnoresCase: same ASCII-only restriction as MatchesIgnoresCase.
