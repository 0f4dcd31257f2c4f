/** The exit-code taxonomy: the numbers a process ends with and the codes an
    envelope carries. */
module ExitCodes {
  datatype Code =
    | OK | InvalidArgument | Auth | Precondition | Unavailable | ContractMismatch | Failed | Partial
    | FeatureUnavailable

  /** The exit status frozen for a code. */
  function ExitCode(c: Code): int {
    match c
    case OK => 0
    case InvalidArgument => 2
    case Auth => 3
    case Precondition => 4
    case Unavailable => 5
    case ContractMismatch => 6
    case Failed => 7
    case Partial => 8
    case FeatureUnavailable => 9
  }

  /** The envelope's code for a number; a number of no row reads as Failed. */
  function Label(code: int): Code {
    if code == 0 then OK
    else if code == 2 then InvalidArgument
    else if code == 3 then Auth
    else if code == 4 then Precondition
    else if code == 5 then Unavailable
    else if code == 6 then ContractMismatch
    else if code == 7 then Failed
    else if code == 8 then Partial
    else if code == 9 then FeatureUnavailable
    else Failed
  }

  /** The envelope's code and the exit status are one to one. */
  lemma LabelExactly(code: int)
    ensures ExitCode(Label(code)) == if code == 0 || 2 <= code <= 9 then code else 7
  {
  }
}
