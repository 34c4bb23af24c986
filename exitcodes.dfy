/**
 * The `ExitCode` enumeration of dorunrun.py: one constructor per canonical member. Python's
 * enum makes a second name for an existing value an alias, so `USAGE` (64) is `BASEVALUE`.
 */
module ExitCodes {
  import opened Wrappers

  datatype ExitCode =
    | Success | General | Builtin | NoDevice | UserOrGroupExists | NoSudo
    | BaseValue | DataErr | NoInput | NoUser | NoHost | Unavailable | Software | OsErr
    | OsFile | CantCreat | IoErr | TempFail | Protocol | NoPerm | Config
    | Timeout | TimeoutFailed | NotExecutable | NoSuchCommand
    | KilledBySignal | KilledByCtrlC | KilledByKill | KilledByPipe | KilledByTerm
    | KilledByMax | OutOfRange
  {
    /** The member's value, with the `os.EX_*` constants written out. */
    function Value(): int {
      match this
      case Success => 0
      case General => 1
      case Builtin => 2
      case NoDevice => 6
      case UserOrGroupExists => 9
      case NoSudo => 10
      case BaseValue => 64
      case DataErr => 65
      case NoInput => 66
      case NoUser => 67
      case NoHost => 68
      case Unavailable => 69
      case Software => 70
      case OsErr => 71
      case OsFile => 72
      case CantCreat => 73
      case IoErr => 74
      case TempFail => 75
      case Protocol => 76
      case NoPerm => 77
      case Config => 78
      case Timeout => 124
      case TimeoutFailed => 125
      case NotExecutable => 126
      case NoSuchCommand => 127
      case KilledBySignal => 128
      case KilledByCtrlC => 130
      case KilledByKill => 137
      case KilledByPipe => 141
      case KilledByTerm => 143
      case KilledByMax => 161
      case OutOfRange => 255
    }

    /** The member's `.name`: for an aliased value, the name declared first. */
    function Name(): string {
      match this
      case Success => "SUCCESS"
      case General => "GENERAL"
      case Builtin => "BUILTIN"
      case NoDevice => "NODEVICE"
      case UserOrGroupExists => "USERORGROUPEXISTS"
      case NoSudo => "NOSUDO"
      case BaseValue => "BASEVALUE"
      case DataErr => "DATAERR"
      case NoInput => "NOINPUT"
      case NoUser => "NOUSER"
      case NoHost => "NOHOST"
      case Unavailable => "UNAVAILABLE"
      case Software => "SOFTWARE"
      case OsErr => "OSERR"
      case OsFile => "OSFILE"
      case CantCreat => "CANTCREAT"
      case IoErr => "IOERR"
      case TempFail => "TEMPFAIL"
      case Protocol => "PROTOCOL"
      case NoPerm => "NOPERM"
      case Config => "CONFIG"
      case Timeout => "TIMEOUT"
      case TimeoutFailed => "TIMEOUTFAILED"
      case NotExecutable => "NOTEXECUTABLE"
      case NoSuchCommand => "NOSUCHCOMMAND"
      case KilledBySignal => "KILLEDBYSIGNAL"
      case KilledByCtrlC => "KILLEDBYCTRLC"
      case KilledByKill => "KILLEDBYKILL"
      case KilledByPipe => "KILLEDBYPIPE"
      case KilledByTerm => "KILLEDBYTERM"
      case KilledByMax => "KILLEDBYMAX"
      case OutOfRange => "OUTOFRANGE"
    }

    /** `x.OK`: identity with `SUCCESS`, the only member whose value is 0. */
    predicate IsOk()
      ensures IsOk() <==> Value() == 0
    {
      this == Success
    }

    /**
     * `x.is_signal`: strictly between `KILLEDBYSIGNAL` and `KILLEDBYMAX`, which among the
     * members means the four listed kill codes; the endpoints 128 and 161 are not signal codes.
     */
    predicate IsSignal()
      ensures IsSignal() <==> this in {KilledByCtrlC, KilledByKill, KilledByPipe, KilledByTerm}
    {
      KilledBySignal.Value() < Value() < KilledByMax.Value()
    }

    /**
     * `x.signal`: the signal number, or 0 for a member that is not a signal code. A signal
     * code is 128 plus its signal number.
     */
    function Signal(): (s: int)
      ensures IsSignal() ==> 0 < s < 33 && Value() == KilledBySignal.Value() + s
      ensures !IsSignal() ==> s == 0
    {
      if IsSignal() then Value() % KilledBySignal.Value() else 0
    }
  }

  /** The alias `USAGE = os.EX_USAGE`, which is the member `BASEVALUE`. */
  const Usage: ExitCode := BaseValue

  /** The enum's value-to-member table. */
  const Members: map<int, ExitCode> := map[
    0 := Success, 1 := General, 2 := Builtin, 6 := NoDevice, 9 := UserOrGroupExists,
    10 := NoSudo, 64 := BaseValue, 65 := DataErr, 66 := NoInput, 67 := NoUser, 68 := NoHost,
    69 := Unavailable, 70 := Software, 71 := OsErr, 72 := OsFile, 73 := CantCreat,
    74 := IoErr, 75 := TempFail, 76 := Protocol, 77 := NoPerm, 78 := Config,
    124 := Timeout, 125 := TimeoutFailed, 126 := NotExecutable, 127 := NoSuchCommand,
    128 := KilledBySignal, 130 := KilledByCtrlC, 137 := KilledByKill, 141 := KilledByPipe,
    143 := KilledByTerm, 161 := KilledByMax, 255 := OutOfRange]

  /** `ExitCode(x)`: the member with value `x`; `None` where Python raises ValueError. */
  function Lookup(x: int): (r: Option<ExitCode>)
    ensures r.Some? ==> r.value.Value() == x
  {
    if x in Members then Some(Members[x]) else None
  }

  /**
   * `x in ExitCode` (FakingIt.__contains__): the lookup succeeds, which is exactly when `x` is
   * some member's value; every other integer is reported absent.
   */
  predicate Contains(x: int)
    ensures Contains(x) ==> exists e: ExitCode :: e.Value() == x
    ensures (exists e: ExitCode :: e.Value() == x) ==> Contains(x)
  {
    Lookup(x).Some?
  }

  /** Looking up a member's value gives back that member: values are distinct apart from the alias. */
  lemma LookupValue(e: ExitCode)
    ensures Lookup(e.Value()) == Some(e)
  {
  }

  /** 64 has one canonical member: the alias `USAGE` is `BASEVALUE` and carries its name. */
  lemma UsageIsBaseValue()
    ensures Lookup(64) == Some(Usage) && Usage.Name() == "BASEVALUE"
  {
  }

  /** Every member's value is a possible exit status: it fits in one byte. */
  lemma ValueFitsByte(e: ExitCode)
    ensures 0 <= e.Value() < 256
  {
  }

  /** SIGINT, SIGKILL, SIGPIPE and SIGTERM. */
  lemma KnownSignals()
    ensures KilledByCtrlC.Signal() == 2 && KilledByKill.Signal() == 9
    ensures KilledByPipe.Signal() == 13 && KilledByTerm.Signal() == 15
    ensures KilledBySignal.Signal() == 0 && KilledByMax.Signal() == 0
  {
  }
}
