# Windows fail-fast shim and default selector provider

A Dafny model of two version-skew fallbacks in the Windows port of the OpenJDK runtime.

**The HotSpot fatal-error shim** (`src/hotspot/os/windows/vmError_windows.cpp`, module
`FailFast` in `fail_fast.dfy`). `RaiseFailFastException_Runtime` ends the process on every
path. If kernel32 exports `RaiseFailFastException`, the shim calls it and then kills the
process with status `(UINT)-1`. Otherwise it may add `SEM_NOGPFAULTERRORBOX` to the error
mode, and it builds a non-continuable `EXCEPTION_RECORD`. That record is a copy of the
caller's record or a zeroed one, and a zero code becomes `STATUS_STACK_BUFFER_OVERRUN`. It
copies at most `EXCEPTION_MAXIMUM_PARAMETERS` parameters, raises the record, swallows any
handler and kills the process with the record's code. The process is a class, `Process`.
Its fields are the error mode, the list of raised exceptions and the exit status. The OS
calls (`SetErrorMode`, `RaiseException`, `TerminateProcess`) are its methods. The
`RaiseFailFastException` lookup is done once and cached, so it is a constant of the
process. Building the record (`SynthesizeRecord`) and copying the parameters
(`CopyParameters`, a loop over a local array) are methods. Each is proved against a
specification function: `Synthesized` and `PassedParameters`. The same module holds the
flag choice of `VMError::raise_fail_fast` and the predicates `was_assert_poison_crash` and
`check_failing_cds_access`.

**The default NIO selector provider** (`src/java.base/windows/classes/sun/nio/ch/DefaultSelectorProvider.java`,
module `SelectorProvider` in `selector_provider.dfy`). The static initialiser picks
`WEPollSelectorProvider` only when three things hold:

- the `jdk.nio.disableWEPoll` switch is off;
- `isWin7OrLater()` holds;
- the WEPoll constructor does not throw.

Otherwise it picks `WindowsSelectorProvider`. `get()` returns that one instance.
`isWin7OrLater` reads `os.version` with `String.split("\\.")` and `Integer.parseInt`.
Both library calls are modelled: `Split` and `ParseInt`. Then it compares `(major, minor)`
with `(6, 1)`.

Inputs that come from the environment are parameters:

- whether kernel32 exports the fail-fast function;
- the toolchain (MSVC or not), `_ReturnAddress()` and the shim's own address (`CallSite`);
- whether a handler catches the raised exception;
- the previous error mode;
- the build options `CAN_SHOW_REGISTERS_ON_ASSERT` and `INCLUDE_CDS`;
- `g_assert_poison_read_only`, `CDSConfig::is_using_archive()` and
  `MetaspaceShared::is_in_shared_metaspace`;
- the `os.version` property, the kill switch and whether WEPoll construction succeeds.

Types: a DWORD that holds a number (codes, counts, statuses) is `DWord`, an integer below
2^32. A DWORD used as a set of bits (exception flags, fail-fast flags, the error mode) is
`bv32`. `PVOID` and `ULONG_PTR` are `UIntPtr`, integers below 2^64, for a 64-bit target.
The header values the file uses but does not define are taken from the Windows SDK:
`EXCEPTION_NONCONTINUABLE` = 1, `SEM_NOGPFAULTERRORBOX` = 2,
`EXCEPTION_MAXIMUM_PARAMETERS` = 15, `EXCEPTION_ACCESS_VIOLATION` = 0xC0000005,
`EXCEPTION_IN_PAGE_ERROR` = 0xC0000006 and `STATUS_STACK_OVERFLOW` = 0xC00000FD.

## Model

| member | source | states |
|---|---|---|
| FailFast.SynthesizeRecord | src/hotspot/os/windows/vmError_windows.cpp:76-101 | building `er` field by field yields exactly the specified synthetic record, for a supplied record and for none |
| FailFast.SynthesizedFromRecord | src/hotspot/os/windows/vmError_windows.cpp:77-89 | a supplied record keeps every flag bit and gains exactly `EXCEPTION_NONCONTINUABLE`; a nonzero code is kept and a zero one becomes 0xC0000409; a nonzero address is kept; a zero address becomes the return address (MSVC) or the shim's address (other compilers) when the generate flag is set, and stays zero otherwise; all other fields are unchanged |
| FailFast.SynthesizedWithoutRecord | src/hotspot/os/windows/vmError_windows.cpp:90-98 | with no record the result is all zero except code 0xC0000409, flags exactly `EXCEPTION_NONCONTINUABLE`, and the address, which is the return address only under MSVC with the generate flag |
| FailFast.SynthesizedIsFatal | src/hotspot/os/windows/vmError_windows.cpp:79-82 | whatever the input, the synthesised record is non-continuable and its code is nonzero |
| FailFast.DialogSuppressionKeepsMode | src/hotspot/os/windows/vmError_windows.cpp:71-74 | OR-ing in `SEM_NOGPFAULTERRORBOX` keeps every old error-mode bit and adds that bit only |
| FailFast.CopyParameters | src/hotspot/os/windows/vmError_windows.cpp:103-109 | when `NumberParameters` is at most 15, `nparams` equals it and `params[i]` equals `ExceptionInformation[i]` for each `i < nparams`; otherwise `nparams` is 0; every index is below 15 |
| FailFast.StackOverflowEndToEnd | src/hotspot/os/windows/vmError_windows.cpp:76-117 | a stack-overflow record with zero flags, address and parameters is raised non-continuable with its code kept, the generated address and no arguments, and the exit status is the stack-overflow code |
| FailFast.LadderStatus | src/hotspot/os/windows/vmError_windows.cpp:56-119 | the exit status the shim ends with (`(UINT)-1` after the fail-fast call, else the synthesised code) is never 0 |
| FailFast.Process.constructor | src/hotspot/os/windows/vmError_windows.cpp:60-62 | a running process, with nothing raised and no facility call yet, whose fail-fast capability is resolved once and fixed |
| FailFast.Process.SetErrorMode | src/hotspot/os/windows/vmError_windows.cpp:73 | a running process's error mode becomes the given mode; an ended process runs no code, so its mode stays as it was |
| FailFast.Process.TerminateProcess | src/hotspot/os/windows/vmError_windows.cpp:117 | a running process ends with the given status; a process that has ended keeps its status |
| FailFast.Process.RaiseFailFastException | src/hotspot/os/windows/vmError_windows.cpp:63-64 | a running process records one call of the facility with the given record and flags; an ended process calls nothing |
| FailFast.Process.RaiseException | src/hotspot/os/windows/vmError_windows.cpp:111-115 | in a running process, the raise is recorded with its code, flags, arguments and the error mode in force; a caught raise returns with the process still running; an uncaught one ends the process with the code. An ended process raises nothing |
| FailFast.Process.RaiseFailFastExceptionRuntime | src/hotspot/os/windows/vmError_windows.cpp:56-119 | the process always ends. With the capability, the facility is called exactly once, with the caller's record and `dwFlags` unchanged; the status is `(UINT)-1`; the error mode and raised exceptions are unchanged. Without it, the mode gains `SEM_NOGPFAULTERRORBOX` exactly when `FAIL_FAST_NO_HARD_ERROR_DLG` is set, exactly one raise of the synthesised record with the copied parameters is recorded, the new mode is already in force at that raise, the facility is never called, and the status is that record's code, caught or not |
| FailFast.RaiseFailFastFlags | src/hotspot/os/windows/vmError_windows.cpp:165-166 | the flags hold `FAIL_FAST_GENERATE_EXCEPTION_ADDRESS` exactly when there is no record, are 0 for a record, and never hold `FAIL_FAST_NO_HARD_ERROR_DLG` |
| FailFast.RaiseFailFastAddress | src/hotspot/os/windows/vmError_windows.cpp:165-169 | through `raise_fail_fast`, a supplied record's address is never replaced; a missing record gets the return address under MSVC and zero otherwise |
| FailFast.Process.RaiseFailFast | src/hotspot/os/windows/vmError_windows.cpp:165-171 | the process ends with the ladder's status for the chosen flags, so `::abort()` is never reached. The error mode never changes. With the fail-fast facility, it receives the caller's record and exactly the flags `RaiseFailFastFlags` chooses, so dialog suppression is never requested, and nothing is raised. Without it, the facility is never called and exactly the record synthesised for those flags is raised, with its parameters, under the unchanged mode |
| FailFast.WasAssertPoisonCrash | src/hotspot/os/windows/vmError_windows.cpp:173-184 | true exactly when the build can show registers, the record is non-null, the code is `EXCEPTION_ACCESS_VIOLATION`, `NumberParameters >= 2` and `ExceptionInformation[1]` is the poison address |
| FailFast.CheckFailingCdsAccess | src/hotspot/os/windows/vmError_windows.cpp:141-157 | prints the archive hint exactly when CDS is built in, the record is non-null, the archive is in use, the code is `EXCEPTION_IN_PAGE_ERROR`, `NumberParameters >= 2`, `ExceptionInformation[1]` is nonzero and lies in the shared metaspace; otherwise prints nothing |
| SelectorProvider.ParseInt | src/java.base/windows/classes/sun/nio/ch/DefaultSelectorProvider.java:79-80 | a result of `Integer.parseInt` always lies in the Java `int` range; the empty string fails |
| SelectorProvider.ParseIntOfDigits | src/java.base/windows/classes/sun/nio/ch/DefaultSelectorProvider.java:79-80 | an optional `+` or `-` followed by decimal digits reads as its signed value when that fits a Java `int`, and fails when it does not; so "07", "+7" and "-0" read as 7, 7 and 0 |
| SelectorProvider.ParseIntOverflows | src/java.base/windows/classes/sun/nio/ch/DefaultSelectorProvider.java:79-84 | more than ten digits with a nonzero leading digit always overflow, so `parseInt` throws |
| SelectorProvider.ParseIntToString | src/java.base/windows/classes/sun/nio/ch/DefaultSelectorProvider.java:79-80 | `parseInt` reads back every Java `int` written in decimal |
| SelectorProvider.ParseIntRejects | src/java.base/windows/classes/sun/nio/ch/DefaultSelectorProvider.java:77-84 | a character that is neither a digit nor a leading sign makes `parseInt` fail, and so does a lone sign |
| SelectorProvider.Fields | src/java.base/windows/classes/sun/nio/ch/DefaultSelectorProvider.java:78 | the pieces between dots are at least one and contain no dot |
| SelectorProvider.JoinOfFields | src/java.base/windows/classes/sun/nio/ch/DefaultSelectorProvider.java:78 | joining the fields with dots gives the string back; with `FieldsOfJoin`, the fields are the one dot-free list that joins to the string |
| SelectorProvider.FieldsOfJoin | src/java.base/windows/classes/sun/nio/ch/DefaultSelectorProvider.java:78 | the fields of dot-free pieces joined with dots are those pieces |
| SelectorProvider.DropTrailingEmpty | src/java.base/windows/classes/sun/nio/ch/DefaultSelectorProvider.java:78 | the result is a prefix of the input that does not end in an empty string, and only empty strings were removed |
| SelectorProvider.Split | src/java.base/windows/classes/sun/nio/ch/DefaultSelectorProvider.java:78 | `split("\\.")` returns the string whole when it has no dot; otherwise dot-free pieces whose last piece is not empty (possibly none). With `DropTrailingEmpty` and `JoinOfFields` it is exactly the fields less the trailing empty ones |
| SelectorProvider.SplitJoin | src/java.base/windows/classes/sun/nio/ch/DefaultSelectorProvider.java:78 | `split("\\.")` undoes joining with dots, for dot-free pieces whose last piece is not empty |
| SelectorProvider.IsWin7OrLater | src/java.base/windows/classes/sun/nio/ch/DefaultSelectorProvider.java:71-88 | the step-by-step parse with early returns gives exactly the specified gate: null, empty or unparsable means false; otherwise `(major, minor) >= (6, 1)`, with missing components read as 0 |
| SelectorProvider.FailuresMeanFalse | src/java.base/windows/classes/sun/nio/ch/DefaultSelectorProvider.java:74-84 | a null or empty property, or a first or second component that `parseInt` rejects, gives false |
| SelectorProvider.MissingMinorIsZero | src/java.base/windows/classes/sun/nio/ch/DefaultSelectorProvider.java:76-80 | with one component, the result is true exactly when it parses to a value above 6 |
| SelectorProvider.LaterComponentsIgnored | src/java.base/windows/classes/sun/nio/ch/DefaultSelectorProvider.java:78-80 | when the minor component is non-empty, anything after the second dot does not change the result |
| SelectorProvider.Win7OrLaterOfDecimal | src/java.base/windows/classes/sun/nio/ch/DefaultSelectorProvider.java:76-87 | for any two Java ints written as `major.minor`, the result is the lexicographic test `(major, minor) >= (6, 1)` |
| SelectorProvider.AtLeastMonotone | src/java.base/windows/classes/sun/nio/ch/DefaultSelectorProvider.java:85-87 | every version at or above one that passes also passes |
| SelectorProvider.SampleVista | src/java.base/windows/classes/sun/nio/ch/DefaultSelectorProvider.java:70-88 | "6.0" gives false |
| SelectorProvider.SampleWindows7 | src/java.base/windows/classes/sun/nio/ch/DefaultSelectorProvider.java:70-88 | "6.1" gives true |
| SelectorProvider.SampleWindows10 | src/java.base/windows/classes/sun/nio/ch/DefaultSelectorProvider.java:85 | "10.0" gives true |
| SelectorProvider.SampleMajorFirst | src/java.base/windows/classes/sun/nio/ch/DefaultSelectorProvider.java:85-87 | "5.9" gives false |
| SelectorProvider.UnparsableMinorMeansFalse | src/java.base/windows/classes/sun/nio/ch/DefaultSelectorProvider.java:77-84 | a dot-free minor component that `parseInt` rejects gives false, whatever the major component |
| SelectorProvider.OverflowingMinorMeansFalse | src/java.base/windows/classes/sun/nio/ch/DefaultSelectorProvider.java:77-84 | a minor component of more than ten digits with a nonzero leading digit, with either sign or none (as in "7.99999999999"), overflows, so `parseInt` throws and the result is false |
| SelectorProvider.SampleTrailingDot | src/java.base/windows/classes/sun/nio/ch/DefaultSelectorProvider.java:76-80 | "7." gives true: `split` drops the trailing empty piece, so the minor version keeps its default 0 |
| SelectorProvider.SampleTrailingDots | src/java.base/windows/classes/sun/nio/ch/DefaultSelectorProvider.java:76-80 | "7.." gives true: both trailing empty pieces are dropped |
| SelectorProvider.SampleEmptyMinor | src/java.base/windows/classes/sun/nio/ch/DefaultSelectorProvider.java:77-84 | "7..1" gives false: the empty minor component between the dots is kept, and `parseInt("")` throws |
| SelectorProvider.SamplesWithoutMinor | src/java.base/windows/classes/sun/nio/ch/DefaultSelectorProvider.java:76-80 | "6" gives false and "7" gives true |
| SelectorProvider.ChosenProvider | src/java.base/windows/classes/sun/nio/ch/DefaultSelectorProvider.java:39-54 | WEPoll exactly when the kill switch is off, the gate passes and construction succeeds; the legacy provider in every other case |
| SelectorProvider.DefaultSelectorProvider.Initialize | src/java.base/windows/classes/sun/nio/ch/DefaultSelectorProvider.java:38-56 | the static initialiser stores a newly created provider, of the chosen kind, in `INSTANCE` |
| SelectorProvider.DefaultSelectorProvider.Get | src/java.base/windows/classes/sun/nio/ch/DefaultSelectorProvider.java:66-68 | `get()` returns the one immutable `INSTANCE`, of the kind chosen at initialisation |

## Left out

- The `GetProcAddress`/`GetModuleHandleA` lookup of `RaiseFailFastException`: only its outcome is modelled, as the constant `Process.hasFailFast`.
- What `RaiseFailFastException` does once called is opaque. The model records only the call and its arguments, in `Process.failFastCalls`. It takes the path where it comes back, so the shim's own `TerminateProcess(..., (UINT)-1)` sets the status. An OS that ends the process inside the call, with a status of its own, is not modelled.
- An uncaught `RaiseException` is modelled as the system ending the process with the exception's code. Which unhandled-exception filter runs first, and what it does, is not modelled.
- A process that has ended runs no further code. `TerminateProcess` on the current process, or an uncaught exception, never returns. Every OS call made after the process has ended therefore has no effect. This is how the model renders the code after `TerminateProcess` at line 66 when the fail-fast facility exists.
- SEH (`__try`/`__except`) is reduced to a boolean: the raise was caught or it was not.
- `_ReturnAddress()` and the address of the shim are opaque inputs (`CallSite`).
- The `CONTEXT` record is passed through unexamined, so it is not represented.
- `crash_handler` and `install_secondary_signal_handler` are left out. They only register a filter and forward to `VMError::report_and_die`, which is not part of this model.
- `reporting_started` and `interrupt_reporting_thread` are empty on this platform.
- Only the 64-bit layout of `EXCEPTION_RECORD` is modelled. Pointer-sized fields are 64-bit.
- The `outputStream` of `check_failing_cds_access` is reduced to the text it would print.
- SelectorProvider.ParseInt: `Integer.parseInt` also accepts non-ASCII Unicode decimal digits (through `Character.digit`). The model accepts ASCII digits only, so a version string with such digits is read as unparsable.
- `AccessController.doPrivileged`, `System.getProperty` and `Boolean.getBoolean` are environment reads; their results are inputs.
- The constructors of `WEPollSelectorProvider` and `WindowsSelectorProvider` are native and I/O objects. Only whether the WEPoll constructor throws is modelled.
- The thread safety of the static initialiser is not modelled.
