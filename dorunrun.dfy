/**
 * The pure post-processing of dorunrun (dorunrun.py): which kind of value the caller gets,
 * the trimming of the child's output, and how that value is built from the exit code.
 * Running the child process is not modelled: its exit code and output are inputs.
 */
module DoRunRun {
  import opened Wrappers
  import opened ExitCodes

  /** The `return_datatype` argument: a type object, or `None`. */
  datatype ReturnType = IntType | StrType | BoolType | DictType | NoneType | OtherType(name: string)

  /** dorunrun.py:66: anything but int, str or bool, `None` included, becomes dict. */
  function NormaliseReturnType(t: ReturnType): (r: ReturnType)
    ensures r in {IntType, StrType, BoolType, DictType}
    ensures t in {IntType, StrType, BoolType} ==> r == t
    ensures t !in {IntType, StrType, BoolType} ==> r == DictType
  {
    if t in {IntType, StrType, BoolType} then t else DictType
  }

  lemma NormaliseIdempotent(t: ReturnType)
    ensures NormaliseReturnType(NormaliseReturnType(t)) == NormaliseReturnType(t)
  {
  }

  predicate EndsWithNewline(s: string) {
    |s| > 0 && s[|s| - 1] == '\n'
  }

  /** dorunrun.py:92-93: drop one final newline, if there is one. */
  function StripNewline(s: string): (r: string)
    ensures EndsWithNewline(s) ==> r + "\n" == s
    ensures !EndsWithNewline(s) ==> r == s
  {
    if EndsWithNewline(s) then s[..|s| - 1] else s
  }

  /** Appending a newline and trimming gives the text back. */
  lemma StripNewlineAppended(t: string)
    ensures StripNewline(t + "\n") == t
  {
    assert EndsWithNewline(t + "\n");
    assert StripNewline(t + "\n") + "\n" == t + "\n";
  }

  /** Only one newline goes: of two trailing newlines, one stays. */
  lemma StripNewlineOnlyOne(t: string)
    ensures StripNewline(t + "\n\n") == t + "\n"
  {
    assert t + "\n\n" == (t + "\n") + "\n";
    StripNewlineAppended(t + "\n");
  }

  /** The value dorunrun returns. */
  datatype RunValue =
    | IntValue(i: int)
    | StrValue(s: string)
    | BoolValue(b: bool)
    | DictValue(ok: bool, code: int, name: string, stdout: string, stderr: string)

  /** `ExitCode(code).name` raised ValueError, re-raised as "Unexpected error". */
  datatype RunError = NotAnExitCode(code: int)

  /** dorunrun.py:89-106: the returned value, on the child's exit code and captured output. */
  function SelectReturn(requested: ReturnType, code: int, stdout: string, stderr: string): (r: Result<RunValue, RunError>)
    ensures r.Err? <==> NormaliseReturnType(requested) == DictType && !Contains(code)
    ensures r.Err? ==> r.error == NotAnExitCode(code)
    ensures r.Ok? && r.value.DictValue? ==> Lookup(code).Some? && r.value.name == Lookup(code).value.Name()
    ensures r.Ok? && r.value.StrValue? ==> r.value.s == StripNewline(stdout)
    ensures r.Ok? && r.value.DictValue? ==>
      r.value.stdout == StripNewline(stdout) && r.value.stderr == StripNewline(stderr)
  {
    var s, e := StripNewline(stdout), StripNewline(stderr);
    match NormaliseReturnType(requested)
    case IntType => Ok(IntValue(code))
    case StrType => Ok(StrValue(s))
    case BoolType => Ok(BoolValue(code == 0))
    case _ =>
      match Lookup(code)
      case None => Err(NotAnExitCode(code))
      case Some(member) => Ok(DictValue(code == 0, code, member.Name(), s, e))
  }

  /**
   * The bool result is `code == 0`; it agrees with the dict's "OK", which for a member code
   * is that member's `OK` property; the int result and the dict's "code" are the code itself.
   */
  lemma ResultsAgree(code: int, stdout: string, stderr: string)
    ensures SelectReturn(BoolType, code, stdout, stderr) == Ok(BoolValue(code == 0))
    ensures SelectReturn(IntType, code, stdout, stderr) == Ok(IntValue(code))
    ensures var d := SelectReturn(DictType, code, stdout, stderr);
      d.Ok? ==> d.value.ok == (code == 0) == Lookup(code).value.IsOk() && d.value.code == code
  {
  }

  /**
   * The str result, and the dict's "stdout" and "stderr", are the captured output with one
   * final newline removed when there is one, and unchanged otherwise.
   */
  lemma OutputsTrimmed(code: int, stdout: string, stderr: string)
    ensures SelectReturn(StrType, code, stdout, stderr) == Ok(StrValue(StripNewline(stdout)))
    ensures var d := SelectReturn(DictType, code, stdout, stderr);
      d.Ok? ==> d.value.stdout == StripNewline(stdout) && d.value.stderr == StripNewline(stderr)
    ensures !EndsWithNewline(stdout) ==> SelectReturn(StrType, code, stdout, stderr) == Ok(StrValue(stdout))
    ensures SelectReturn(StrType, code, stdout + "\n", stderr) == Ok(StrValue(stdout))
  {
    StripNewlineAppended(stdout);
  }

  /** A requested type that is not int, str or bool gets the dict, exactly as `dict` does. */
  lemma OtherTypesGiveDict(requested: ReturnType, code: int, stdout: string, stderr: string)
    requires requested !in {IntType, StrType, BoolType}
    ensures SelectReturn(requested, code, stdout, stderr) == SelectReturn(DictType, code, stdout, stderr)
  {
  }
}
