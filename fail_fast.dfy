/**
 * The Windows fatal-error shim of the HotSpot virtual machine
 * (src/hotspot/os/windows/vmError_windows.cpp).
 *
 * RaiseFailFastException_Runtime either hands the fault to the operating system's
 * fail-fast facility or, where that facility does not exist, synthesises a
 * non-continuable exception record, raises it and kills the process with its code.
 * The process-wide effects (error mode, raised exceptions, exit status) live in the
 * class Process; the record synthesis and the parameter copy are separate methods,
 * each proved against a specification function.
 */
module FailFast {
  import opened Wrappers

  /** A DWORD or UINT read as a number: exception codes, counts, exit statuses. */
  newtype DWord = x: int | 0 <= x < 0x1_0000_0000
  /** A DWORD read as a set of bits: exception flags, fail-fast flags, the error mode. */
  type Bits = bv32
  /** PVOID and ULONG_PTR on a 64-bit target. */
  newtype UIntPtr = x: int | 0 <= x < 0x1_0000_0000_0000_0000

  const FAIL_FAST_GENERATE_EXCEPTION_ADDRESS: Bits := 0x0001
  const FAIL_FAST_NO_HARD_ERROR_DLG: Bits := 0x0002
  const STATUS_STACK_BUFFER_OVERRUN: DWord := 0xC000_0409

  // Values of the Windows SDK headers (winnt.h, winbase.h) that the file relies on.
  const EXCEPTION_NONCONTINUABLE: Bits := 0x1
  const SEM_NOGPFAULTERRORBOX: Bits := 0x0002
  const EXCEPTION_ACCESS_VIOLATION: DWord := 0xC000_0005
  const EXCEPTION_IN_PAGE_ERROR: DWord := 0xC000_0006
  const EXCEPTION_MAXIMUM_PARAMETERS: nat := 15

  /** (UINT)-1, the exit status used when the fail-fast facility comes back. */
  const FAIL_FAST_RETURNED_STATUS: DWord := 0xFFFF_FFFF

  /** The fixed-size ExceptionInformation array of an EXCEPTION_RECORD. */
  type Information = s: seq<UIntPtr> | |s| == EXCEPTION_MAXIMUM_PARAMETERS
    witness seq(EXCEPTION_MAXIMUM_PARAMETERS, _ => 0)

  /** EXCEPTION_RECORD: `nested` is the ExceptionRecord link to a chained record. */
  datatype ExceptionRecord = ExceptionRecord(
    code: DWord,
    flags: Bits,
    nested: UIntPtr,
    address: UIntPtr,
    numberParameters: DWord,
    information: Information)

  /** The record ZeroMemory leaves behind. */
  function ZeroRecord(): ExceptionRecord {
    ExceptionRecord(0, 0, 0, 0, 0, seq(EXCEPTION_MAXIMUM_PARAMETERS, _ => 0))
  }

  /** What the shim can learn about its own call: the toolchain, the value of
      _ReturnAddress() and the address of the shim routine itself. */
  datatype CallSite = CallSite(msvc: bool, returnAddress: UIntPtr, shimAddress: UIntPtr)

  /** The address filled into a supplied record: _ReturnAddress() under MSVC, otherwise
      the shim's own address. */
  function GeneratedAddress(site: CallSite): UIntPtr {
    if site.msvc then site.returnAddress else site.shimAddress
  }

  predicate Has(mask: Bits, bit: Bits) {
    mask & bit != 0
  }

  /** `mask | bits`, the C compound `|=`. */
  function SetBits(mask: Bits, bits: Bits): Bits {
    mask | bits
  }

  /** SetErrorMode(GetErrorMode() | SEM_NOGPFAULTERRORBOX) keeps every bit of the old
      mode and adds SEM_NOGPFAULTERRORBOX and nothing else. */
  lemma DialogSuppressionKeepsMode(mode: Bits)
    ensures SetBits(mode, SEM_NOGPFAULTERRORBOX) & mode == mode
    ensures Has(SetBits(mode, SEM_NOGPFAULTERRORBOX), SEM_NOGPFAULTERRORBOX)
    ensures SetBits(mode, SEM_NOGPFAULTERRORBOX) & !(mode | SEM_NOGPFAULTERRORBOX) == 0
  {
  }

  // ---------------------------------------------------------------------------
  // Record synthesis (fallback path)
  // ---------------------------------------------------------------------------

  /** The record the fallback path raises: a copy of the caller's record, or a zeroed
      one, made non-continuable, never with code 0, and with an address filled in on
      request. */
  function Synthesized(record: Option<ExceptionRecord>, dwFlags: Bits, site: CallSite): ExceptionRecord {
    match record
    case Some(orig) => SynthesizedFrom(orig, dwFlags, site)
    case None => SynthesizedBlank(dwFlags, site)
  }

  /** The copy of a caller's record. */
  function SynthesizedFrom(orig: ExceptionRecord, dwFlags: Bits, site: CallSite): ExceptionRecord {
    orig.(flags := SetBits(orig.flags, EXCEPTION_NONCONTINUABLE),
          code := if orig.code == 0 then STATUS_STACK_BUFFER_OVERRUN else orig.code,
          address := if orig.address == 0 && Has(dwFlags, FAIL_FAST_GENERATE_EXCEPTION_ADDRESS)
                     then GeneratedAddress(site) else orig.address)
  }

  /** The zeroed record used when the caller supplied none. */
  function SynthesizedBlank(dwFlags: Bits, site: CallSite): ExceptionRecord {
    ZeroRecord().(code := STATUS_STACK_BUFFER_OVERRUN,
                  flags := EXCEPTION_NONCONTINUABLE,
                  address := if site.msvc && Has(dwFlags, FAIL_FAST_GENERATE_EXCEPTION_ADDRESS)
                             then site.returnAddress else 0)
  }

  /** Builds the local record `er` field by field, as the shim does. */
  method SynthesizeRecord(record: Option<ExceptionRecord>, dwFlags: Bits, site: CallSite)
    returns (er: ExceptionRecord)
    ensures er == Synthesized(record, dwFlags, site)
  {
    if record.Some? {
      var orig := record.value;
      er := orig;
      er := er.(flags := SetBits(er.flags, EXCEPTION_NONCONTINUABLE));
      if er.code == 0 {
        er := er.(code := STATUS_STACK_BUFFER_OVERRUN);
      }
      if er.address == 0 && Has(dwFlags, FAIL_FAST_GENERATE_EXCEPTION_ADDRESS) {
        er := er.(address := GeneratedAddress(site));
      }
      assert er == SynthesizedFrom(orig, dwFlags, site);
    } else {
      er := ZeroRecord();
      er := er.(code := STATUS_STACK_BUFFER_OVERRUN);
      er := er.(flags := EXCEPTION_NONCONTINUABLE);
      if site.msvc && Has(dwFlags, FAIL_FAST_GENERATE_EXCEPTION_ADDRESS) {
        er := er.(address := site.returnAddress);
      }
      assert er == SynthesizedBlank(dwFlags, site);
    }
  }

  /** A supplied record keeps every flag bit it had and gains EXCEPTION_NONCONTINUABLE;
      a nonzero code is kept and a zero code becomes STATUS_STACK_BUFFER_OVERRUN; the
      address is kept when nonzero, generated when zero and requested, zero otherwise;
      every other field is the caller's. */
  lemma SynthesizedFromRecord(orig: ExceptionRecord, dwFlags: Bits, site: CallSite)
    ensures var er := Synthesized(Some(orig), dwFlags, site);
      && er.flags & orig.flags == orig.flags
      && er.flags & EXCEPTION_NONCONTINUABLE == EXCEPTION_NONCONTINUABLE
      && er.flags & !(orig.flags | EXCEPTION_NONCONTINUABLE) == 0
      && (orig.code != 0 ==> er.code == orig.code)
      && (orig.code == 0 ==> er.code == STATUS_STACK_BUFFER_OVERRUN)
      && (orig.address != 0 ==> er.address == orig.address)
      && (orig.address == 0 && Has(dwFlags, FAIL_FAST_GENERATE_EXCEPTION_ADDRESS) ==>
            er.address == GeneratedAddress(site))
      && (orig.address == 0 && !Has(dwFlags, FAIL_FAST_GENERATE_EXCEPTION_ADDRESS) ==> er.address == 0)
      && er.nested == orig.nested
      && er.numberParameters == orig.numberParameters
      && er.information == orig.information
  {
  }

  /** Without a record the result is all zero except the code (STATUS_STACK_BUFFER_OVERRUN),
      the flags (exactly EXCEPTION_NONCONTINUABLE) and, only under MSVC with the generate
      flag, the address. */
  lemma SynthesizedWithoutRecord(dwFlags: Bits, site: CallSite)
    ensures var er := Synthesized(None, dwFlags, site);
      && er.code == STATUS_STACK_BUFFER_OVERRUN
      && er.flags == EXCEPTION_NONCONTINUABLE
      && er.address == (if site.msvc && Has(dwFlags, FAIL_FAST_GENERATE_EXCEPTION_ADDRESS)
                        then site.returnAddress else 0)
      && er.nested == 0
      && er.numberParameters == 0
      && forall i :: 0 <= i < EXCEPTION_MAXIMUM_PARAMETERS ==> er.information[i] == 0
  {
  }

  /** Whatever the input, the synthesised record is fatal: non-continuable and with a
      nonzero code, so the exit status derived from it never reads as success. */
  lemma SynthesizedIsFatal(record: Option<ExceptionRecord>, dwFlags: Bits, site: CallSite)
    ensures Has(Synthesized(record, dwFlags, site).flags, EXCEPTION_NONCONTINUABLE)
    ensures Synthesized(record, dwFlags, site).code != 0
  {
  }

  /** STATUS_STACK_OVERFLOW, the code of a stack overflow. */
  const STATUS_STACK_OVERFLOW: DWord := 0xC000_00FD

  /** A stack-overflow record with no flags, no address and no parameters, taken down
      the fallback path with an address requested and no dialog suppression: the raised
      record is non-continuable, keeps its code, gets the generated address and carries
      no arguments, and the process exits with the stack-overflow code. */
  lemma StackOverflowEndToEnd(site: CallSite)
    ensures var orig := ZeroRecord().(code := STATUS_STACK_OVERFLOW);
      var er := Synthesized(Some(orig), FAIL_FAST_GENERATE_EXCEPTION_ADDRESS, site);
      && Has(er.flags, EXCEPTION_NONCONTINUABLE)
      && er.code == STATUS_STACK_OVERFLOW
      && er.address == GeneratedAddress(site)
      && PassedParameters(er) == []
      && LadderStatus(false, Some(orig), FAIL_FAST_GENERATE_EXCEPTION_ADDRESS, site) == STATUS_STACK_OVERFLOW
  {
  }

  // ---------------------------------------------------------------------------
  // Parameter copy (fallback path)
  // ---------------------------------------------------------------------------

  /** The arguments RaiseException receives: the first NumberParameters entries of
      ExceptionInformation, or none when the count exceeds the maximum. */
  function PassedParameters(er: ExceptionRecord): seq<UIntPtr> {
    if er.numberParameters as int <= EXCEPTION_MAXIMUM_PARAMETERS
    then er.information[..er.numberParameters]
    else []
  }

  /** Copies the parameters into a local array of EXCEPTION_MAXIMUM_PARAMETERS slots under
      the counter `nparams`; every index used is below the maximum. */
  method CopyParameters(er: ExceptionRecord) returns (nparams: DWord, params: array<UIntPtr>)
    ensures params.Length == EXCEPTION_MAXIMUM_PARAMETERS
    ensures er.numberParameters as int <= EXCEPTION_MAXIMUM_PARAMETERS ==> nparams == er.numberParameters
    ensures er.numberParameters as int > EXCEPTION_MAXIMUM_PARAMETERS ==> nparams == 0
    ensures nparams as int <= EXCEPTION_MAXIMUM_PARAMETERS
    ensures forall i :: 0 <= i < nparams as int ==> params[i] == er.information[i]
    ensures params[..nparams] == PassedParameters(er)
  {
    params := new UIntPtr[EXCEPTION_MAXIMUM_PARAMETERS];
    nparams := 0;
    if er.numberParameters as int <= EXCEPTION_MAXIMUM_PARAMETERS {
      nparams := er.numberParameters;
      var i := 0;
      while i < nparams as int
        invariant 0 <= i <= nparams as int
        invariant forall k :: 0 <= k < i ==> params[k] == er.information[k]
      {
        params[i] := er.information[i];
        i := i + 1;
      }
    }
  }

  // ---------------------------------------------------------------------------
  // The process and the termination ladder
  // ---------------------------------------------------------------------------

  /** One call of RaiseException: code, flags, the argument array (empty for NULL) and
      the error mode in force when it was raised. */
  datatype Raise = Raise(code: DWord, flags: Bits, arguments: seq<UIntPtr>, errorMode: Bits)

  /** One call of RaiseFailFastException: the record (None for NULL) and the flags it
      was handed. */
  datatype FailFastCall = FailFastCall(record: Option<ExceptionRecord>, flags: Bits)

  /** The exit status of the ladder: the sentinel after the fail-fast facility, else the
      code of the synthesised record. */
  function LadderStatus(hasFailFast: bool, record: Option<ExceptionRecord>, dwFlags: Bits, site: CallSite): (status: DWord)
    ensures status != 0
  {
    if hasFailFast then FAIL_FAST_RETURNED_STATUS
    else
      SynthesizedIsFatal(record, dwFlags, site);
      Synthesized(record, dwFlags, site).code
  }

  /** The flags VMError::raise_fail_fast passes: generate an address only when there is
      no record; never suppress the error dialog. */
  function RaiseFailFastFlags(exrecord: Option<ExceptionRecord>): (flags: Bits)
    ensures !Has(flags, FAIL_FAST_NO_HARD_ERROR_DLG)
    ensures Has(flags, FAIL_FAST_GENERATE_EXCEPTION_ADDRESS) <==> exrecord.None?
    ensures exrecord.Some? ==> flags == 0
  {
    if exrecord.None? then FAIL_FAST_GENERATE_EXCEPTION_ADDRESS else 0
  }

  /** Through raise_fail_fast a supplied record's address is never replaced, and a
      missing record gets the return address only under MSVC. */
  lemma RaiseFailFastAddress(exrecord: Option<ExceptionRecord>, site: CallSite)
    ensures Synthesized(exrecord, RaiseFailFastFlags(exrecord), site).address ==
      match exrecord
      case Some(orig) => orig.address
      case None => if site.msvc then site.returnAddress else 0
  {
  }

  /** The process as the shim sees it: whether kernel32 exports RaiseFailFastException
      (looked up once and cached), the error mode, the exceptions raised so far and,
      once it has ended, its exit status. A process that has ended runs no further code,
      so a call made after that has no effect. */
  class Process {
    const hasFailFast: bool
    var errorMode: Bits
    var raises: seq<Raise>
    var failFastCalls: seq<FailFastCall>
    var exitStatus: Option<DWord>

    constructor (hasFailFast: bool, errorMode: Bits)
      ensures this.hasFailFast == hasFailFast && this.errorMode == errorMode
      ensures raises == [] && failFastCalls == [] && exitStatus == None
    {
      this.hasFailFast := hasFailFast;
      this.errorMode := errorMode;
      raises := [];
      failFastCalls := [];
      exitStatus := None;
    }

    predicate Running()
      reads this
    {
      exitStatus.None?
    }

    /** SetErrorMode(mode). */
    method SetErrorMode(mode: Bits)
      modifies this`errorMode
      ensures errorMode == if Running() then mode else old(errorMode)
    {
      if Running() {
        errorMode := mode;
      }
    }

    /** TerminateProcess(GetCurrentProcess(), status): the first termination decides the
        exit status. */
    method TerminateProcess(status: DWord)
      modifies this`exitStatus
      ensures exitStatus == if old(exitStatus).None? then Some(status) else old(exitStatus)
    {
      if exitStatus.None? {
        exitStatus := Some(status);
      }
    }

    /** RaiseException(code, flags, n, args) inside __try/__except(EXCEPTION_EXECUTE_HANDLER):
        when some handler catches it, control comes back; when none does, the system ends
        the process with the exception's code. */
    method RaiseException(code: DWord, flags: Bits, arguments: seq<UIntPtr>, caught: bool)
      modifies this`raises, this`exitStatus
      ensures raises == if old(Running()) then old(raises) + [Raise(code, flags, arguments, errorMode)]
                        else old(raises)
      ensures exitStatus == if caught || old(exitStatus).Some? then old(exitStatus) else Some(code)
    {
      if Running() {
        raises := raises + [Raise(code, flags, arguments, errorMode)];
        if !caught {
          exitStatus := Some(code);
        }
      }
    }

    /** RaiseFailFastException(record, context, flags), the facility kernel32 exports: the
        call and its arguments are recorded; what the facility then does is outside the
        model, which takes it to come back. */
    method RaiseFailFastException(record: Option<ExceptionRecord>, flags: Bits)
      modifies this`failFastCalls
      ensures failFastCalls == if Running() then old(failFastCalls) + [FailFastCall(record, flags)]
                               else old(failFastCalls)
    {
      if Running() {
        failFastCalls := failFastCalls + [FailFastCall(record, flags)];
      }
    }

    /** RaiseFailFastException_Runtime: ends the process on every path. With the fail-fast
        facility the caller's record and flags are handed to it unchanged, the status is
        (UINT)-1 and nothing of the fallback happens; without it the
        error mode gains SEM_NOGPFAULTERRORBOX on request before anything is raised, the
        synthesised record is raised once under that mode and the process ends with its
        code, caught or not. */
    method RaiseFailFastExceptionRuntime(record: Option<ExceptionRecord>, dwFlags: Bits,
                                         site: CallSite, raiseCaught: bool)
      requires Running()
      modifies this
      ensures !Running()
      ensures exitStatus == Some(LadderStatus(hasFailFast, record, dwFlags, site))
      ensures hasFailFast ==> errorMode == old(errorMode) && raises == old(raises)
      ensures !hasFailFast ==>
        errorMode == (if Has(dwFlags, FAIL_FAST_NO_HARD_ERROR_DLG)
                      then SetBits(old(errorMode), SEM_NOGPFAULTERRORBOX) else old(errorMode))
      ensures !hasFailFast ==>
        var er := Synthesized(record, dwFlags, site);
        raises == old(raises) + [Raise(er.code, er.flags, PassedParameters(er), errorMode)]
      ensures failFastCalls == old(failFastCalls) + (if hasFailFast then [FailFastCall(record, dwFlags)] else [])
    {
      if hasFailFast {
        RaiseFailFastException(record, dwFlags);
        // Should the facility come back, kill the process. The process has then ended,
        // so the fallback below has no effect.
        TerminateProcess(FAIL_FAST_RETURNED_STATUS);
      }

      if Has(dwFlags, FAIL_FAST_NO_HARD_ERROR_DLG) {
        SetErrorMode(SetBits(errorMode, SEM_NOGPFAULTERRORBOX));
      }

      var er := SynthesizeRecord(record, dwFlags, site);
      var nparams, params := CopyParameters(er);
      RaiseException(er.code, er.flags, params[..nparams], raiseCaught);
      TerminateProcess(er.code);
    }

    /** VMError::raise_fail_fast: picks the flags and calls the shim, which never comes
        back, so the ::abort() after it is not reached. The error mode never changes. */
    method RaiseFailFast(exrecord: Option<ExceptionRecord>, site: CallSite, raiseCaught: bool)
      requires Running()
      modifies this
      ensures !Running()
      ensures exitStatus == Some(LadderStatus(hasFailFast, exrecord, RaiseFailFastFlags(exrecord), site))
      ensures errorMode == old(errorMode)
      ensures hasFailFast ==> raises == old(raises)
      ensures !hasFailFast ==>
        var er := Synthesized(exrecord, RaiseFailFastFlags(exrecord), site);
        raises == old(raises) + [Raise(er.code, er.flags, PassedParameters(er), old(errorMode))]
      ensures failFastCalls ==
        old(failFastCalls) + (if hasFailFast then [FailFastCall(exrecord, RaiseFailFastFlags(exrecord))] else [])
    {
      var flags := RaiseFailFastFlags(exrecord);
      RaiseFailFastExceptionRuntime(exrecord, flags, site, raiseCaught);
    }
  }

  // ---------------------------------------------------------------------------
  // Predicates on a fault record
  // ---------------------------------------------------------------------------

  /** VMError::was_assert_poison_crash; `canShowRegistersOnAssert` stands for the
      CAN_SHOW_REGISTERS_ON_ASSERT build option, `poison` for g_assert_poison_read_only. */
  function WasAssertPoisonCrash(siginfo: Option<ExceptionRecord>, poison: UIntPtr,
                                canShowRegistersOnAssert: bool): (r: bool)
    ensures r <==> canShowRegistersOnAssert && siginfo.Some?
                   && siginfo.value.code == EXCEPTION_ACCESS_VIOLATION
                   && siginfo.value.numberParameters >= 2
                   && siginfo.value.information[1] == poison
  {
    if !canShowRegistersOnAssert then false
    else if siginfo.None? then false
    else
      var er := siginfo.value;
      if er.code == EXCEPTION_ACCESS_VIOLATION && er.numberParameters >= 2
      then er.information[1] == poison
      else false
  }

  const CDS_HINT: string :=
    "Error accessing class data sharing archive. Mapped file inaccessible during execution, possible disk/network problem."

  /** VMError::check_failing_cds_access: the text it prints. `includeCds` stands for the
      INCLUDE_CDS build option, `usingArchive` for CDSConfig::is_using_archive() and
      `inSharedMetaspace` for MetaspaceShared::is_in_shared_metaspace. */
  function CheckFailingCdsAccess(siginfo: Option<ExceptionRecord>, includeCds: bool, usingArchive: bool,
                                 inSharedMetaspace: UIntPtr -> bool): (printed: string)
    ensures printed == CDS_HINT || printed == []
    ensures printed == CDS_HINT <==>
      && includeCds && siginfo.Some? && usingArchive
      && siginfo.value.code == EXCEPTION_IN_PAGE_ERROR
      && siginfo.value.numberParameters >= 2
      && siginfo.value.information[1] != 0
      && inSharedMetaspace(siginfo.value.information[1])
  {
    if includeCds && siginfo.Some? && usingArchive then
      var er := siginfo.value;
      if er.code == EXCEPTION_IN_PAGE_ERROR && er.numberParameters >= 2 then
        var faultAddr := er.information[1];
        if faultAddr != 0 && inSharedMetaspace(faultAddr) then CDS_HINT else []
      else []
    else []
  }
}
