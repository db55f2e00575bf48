# cpufrequtils core in Dafny

This project models two parts of cpufrequtils and proves properties of them.

- The sysfs back end of libcpufreq (`lib/sysfs.c`). It reads and writes the per-CPU cpufreq attributes under `/sys/devices/system/cpu/cpuN/cpufreq/`. Single values are read with `strtoul`, with 0 meaning "unknown". Strings are read with the trailing newline removed. Three list readers cut an attribute's text into tokens. `verify_gov` checks governor names. The policy modifiers, `sysfs_set_policy` and `sysfs_set_frequency` write decimal text or a governor name, in a fixed order.
- The APERF/MPERF tool (`utils/aperf.c`). It covers the average-frequency and C-state arithmetic, and the per-CPU table of counter baselines. It also covers the sampling loops over one CPU or all CPUs.

The files:

| file | module | contents |
|---|---|---|
| `ctypes.dfy` | `CTypes` | C integer widths and wrap-around, errno values, `Option`, C strings |
| `clib.dfy` | `CLib` | glibc `strtoul(.., 0)`, `sscanf("%lu")`, `sscanf("%u")`, `snprintf("%lu")`, and their round trips |
| `sysfs_store.dfy` | `SysfsStore` | the attribute store and the read accessors |
| `sysfs_lists.dfy` | `SysfsLists` | the tokenising loop, its specification `Split`, and the three list readers |
| `sysfs_write.dfy` | `SysfsWrite` | `verify_gov`, ordered writes, and the class `CpufreqSysfs` holding the attributes and the write log |
| `aperf_math.dfy` | `AperfMath` | `get_average_perf` and `get_C_state_time` |
| `aperf_sampler.dfy` | `AperfSampler` | `get_measure_start_info`, the class `Sampler` over the `cpu_list` array, and both sampling loops |

## How the environment is modelled

- **Attribute store.** The store is a map from (cpu, attribute name) to `Unreadable` or `Text(s)`.
  - A key missing from the map is an attribute that `sysfs_open_attribute` cannot open.
  - `Unreadable` stands for a failed `sysfs_read_attribute` or a NULL value.
- **Writes.** The kernel's answer to a write is an oracle function of the attribute and the text.
  - Every write to an attribute that opens is appended to a log with its result.
  - A result of 0 replaces the attribute's text.
  - An attribute that does not open gives `-ENODEV` and leaves no log entry.
- **Hardware and clock.** The hardware limits, the MSR readings and the elapsed intervals are inputs.
  - A failed MSR read is `None`.
  - `sleep` and `gettimeofday` are replaced by the elapsed `Timeval` of each pass.
- **Integer widths.**
  - `unsigned long` and `uint64_t` arithmetic wraps modulo 2^64 (`Wrap64`).
  - Conversion to `unsigned int` keeps the low 32 bits (`Wrap32`).
  - The signed `timeval` arithmetic divides with truncation toward zero (`TruncDiv1000`).
- **Unguarded divisions.** Several divisions in `aperf.c` are not guarded: by `expected_ticks`, by `max_freq`, and by the shifted MPERF delta. They appear as preconditions (`CanSample`, `SingleOk`, `PassOk`, `RunOk`). `ZeroExpectedTicks` and `ShiftZeroesSmallMperf` show inputs that reach a zero divisor.

## Behaviour worth knowing

The model follows the C code as written. Each of these follows from the shape of the code and is easy to miss.

- **Short list tokens.** The list readers do not drop a segment shorter than the minimum length.
  - When a delimiter lies too close to the token start, the reader skips it without moving the start. The short segment then becomes the head of the next token.
  - Text after the last delimiter is never emitted, because the `i == len` test sits inside a loop that stops at `i < len`.
  - So `"0 1 22 333"` with minimum length 2 gives `["0 1", "22"]` (`SplitExampleShortSegments`).
  - Duplicate tokens are kept.
- **Empty lists.** A list with no token returns NULL, the same as a read failure.
- **Governor names.** `verify_gov` accepts ASCII letters, `-` and `_` only, so digits are refused. It accepts the empty name.
- **Zero minimum.** `sysfs_set_policy` checks only that `max >= min`, so it writes a zero minimum. When that write is accepted, the stored `"0"` reads back as unknown and `sysfs_get_policy` returns NULL (`SetPolicyZeroMinUnreadable`).
- **Unguarded divisions.** `get_average_perf` and `get_C_state_time` divide without a guard. A zero MPERF delta or a zero-length interval is a division by zero.
- **Invalid CPUs.** A CPU whose start-up failed is never initialised again by `do_measure_all_cpus`. It reports nothing in every pass (`InvalidCpuStaysSilent`).

## Model

| member | source | states |
|---|---|---|
| CLib.ScanU | lib/sysfs.c:407-408 | `sscanf("%u")` succeeds exactly when `"%lu"` does, and stores that value cut to 32 bits |
| CLib.DecimalValue | lib/sysfs.c:479 | the digits printed by `"%lu"` denote the number printed |
| CLib.DecimalRoundTrip | lib/sysfs.c:63 | `strtoul(.., 0)` reads back exactly the value `"%lu"` printed, including `"0"`, which base 0 reads as octal |
| CLib.DecimalScanRoundTrip | lib/sysfs.c:339-341 | `sscanf("%lu")` reads back exactly the value `"%lu"` printed |
| CLib.ScanRefusesLetter | lib/sysfs.c:339-341 | `sscanf("%lu")` fails on text that starts with a letter |
| SysfsStore.ValueOfText | lib/sysfs.c:57-73 | a nonzero result is what `strtoul` converted from non-empty text; an empty text, no digits, or `ERANGE` give 0 |
| SysfsStore.GetOneValue | lib/sysfs.c:41-74 | 0 for an index out of range and for a failed read; a readable attribute gives the value of its text under the 0-means-unknown rule (`ValueOfText`), so a nonzero value is `strtoul` of that text |
| SysfsStore.DropNewline | lib/sysfs.c:115-116 | exactly one trailing newline is removed, and only when present |
| SysfsStore.GetOneString | lib/sysfs.c:90-121 | a result exactly when the index is valid, the read succeeds and the text is shorter than SYSFS_PATH_MAX; the result is the text less one trailing newline, cut at its first NUL (a NUL-free prefix followed by NUL or the end); for NUL-free text it is the whole text less the newline |
| SysfsStore.GetFreqKernel | lib/sysfs.c:175-178 | 0 when `scaling_cur_freq` cannot be read; otherwise the value of its text under the 0-means-unknown rule, so a nonzero value is `strtoul` of that text |
| SysfsStore.GetFreqHardware | lib/sysfs.c:180-183 | the same for `cpuinfo_cur_freq` |
| SysfsStore.GetDriver | lib/sysfs.c:203-205 | a driver name exactly when `scaling_driver` reads and is shorter than SYSFS_PATH_MAX; the name is the text less one trailing newline, cut at its first NUL; for NUL-free text it is the whole text less the newline |
| SysfsStore.GetHardwareLimits | lib/sysfs.c:185-201 | `-EINVAL` with nothing stored for a missing out-pointer; otherwise the minimum is always stored, the result is 0 exactly when both limits read as nonzero and `-ENODEV` otherwise; a zero minimum stops before the maximum is read (nothing stored for it), a nonzero one stores the maximum, zero or not |
| SysfsStore.GetPolicy | lib/sysfs.c:207-228 | a policy exactly when the governor reads and both bounds are nonzero, and the policy holds exactly those three values |
| SysfsStore.ValueOfDecimal | lib/sysfs.c:63-73 | an attribute holding the `"%lu"` text of n reads as n |
| SysfsLists.NextDelim | lib/sysfs.c:251-252 | the first space, NUL or newline from a given index, and that none comes before it; None when there is none |
| SysfsLists.ScanTokens | lib/sysfs.c:248-278 | the scanning loop emits exactly the token list `Split` |
| SysfsLists.SplitTokenShape | lib/sysfs.c:254-255 | every emitted token is at least the minimum length, and any delimiter inside it lies in its first minimum-length characters |
| SysfsLists.SplitIgnoresUndelimitedTail | lib/sysfs.c:249-253 | appending delimiter-free text never changes the tokens, so the last undelimited token is lost |
| SysfsLists.SplitEmits | lib/sysfs.c:254-276 | a delimited segment of at least the minimum length is emitted as the next token, and scanning resumes after its delimiter |
| SysfsLists.SplitMergesShort | lib/sysfs.c:254-255 | a segment shorter than the minimum is not dropped: it and its delimiter begin the next emitted token |
| SysfsLists.SplitExampleFrequencies | lib/sysfs.c:316-346 | one example: `"1600000 800000\n"` yields both entries in order |
| SysfsLists.SplitExampleShortSegments | lib/sysfs.c:249-278 | `"0 1 22 333"` with minimum length 2 yields `"0 1"` and `"22"` |
| SysfsLists.SplitDelimited | lib/sysfs.c:248-278 | tokens that `Split` can emit, each followed by a delimiter, are read back as exactly those tokens in order, whatever follows |
| SysfsLists.SplitKernelList | lib/sysfs.c:248-278 | a list printed as the kernel prints it, each entry followed by a space and the whole closed by a newline, reads back as exactly its entries |
| SysfsLists.GovernorNames | lib/sysfs.c:270-275 | each governor is the longest NUL-free prefix of its token, so a token without NUL is kept whole |
| SysfsLists.ConvertAll | lib/sysfs.c:341-342 | the list converts exactly when every token converts, and then holds each token's value in order |
| SysfsLists.FrequencyTokenDecimal | lib/sysfs.c:323-341 | a frequency printed with `"%lu"` is read back as itself |
| SysfsLists.CpuTokenDecimal | lib/sysfs.c:388-407 | a number printed with `"%lu"` is read back as a CPU number cut to 32 bits |
| SysfsLists.TokenRefusesLetter | lib/sysfs.c:339-342 | a token starting with a letter converts neither as a frequency nor as a CPU number |
| SysfsLists.AvailableGovernors | lib/sysfs.c:230-293 | NULL exactly when the attribute cannot be read or no token is emitted; otherwise the C-string governors of the tokens of minimum length 2 |
| SysfsLists.AvailableFrequencies | lib/sysfs.c:296-359 | NULL exactly when the read fails, no token is emitted or any token fails to convert; otherwise each token's `"%lu"` value in order |
| SysfsLists.AffectedCpus | lib/sysfs.c:361-425 | the same with minimum length 1 and `"%u"` |
| SysfsWrite.VerifyGov | lib/sysfs.c:427-460 | 0 exactly when a name is given whose C string is at most 19 letters, `-` or `_`, else `-EINVAL`; on success the buffer holds the name padded with NULs to 20 bytes |
| SysfsWrite.PaddedName | lib/sysfs.c:434-458 | the NUL-padded buffer denotes the name again as a C string |
| SysfsWrite.UserspacePrefix | lib/sysfs.c:534 | `strncmp(governor, "userspace", 9) == 0` holds exactly when the governor begins with "userspace" |
| SysfsWrite.UserspaceName | lib/sysfs.c:527-535 | "userspace" passes `verify_gov` unchanged |
| SysfsWrite.RunWritesStored | lib/sysfs.c:514-522 | a run that succeeds leaves every planned text stored, applied in plan order |
| SysfsWrite.RunWritesSplit | lib/sysfs.c:514-522 | a run whose first `k` writes succeed continues as a run of the remaining writes from the store they left |
| SysfsWrite.RunWritesFailsAt | lib/sysfs.c:514-522 | when write `k` fails after `0..k-1` succeeded, the run returns that write's result and the store holds exactly what writes `0..k-1` stored: nothing is rolled back and nothing later is written |
| SysfsWrite.RunWritesOrdered | lib/sysfs.c:514-522 | the log grows by the planned writes in order, up to and including the first failure; the run succeeds exactly when all were made and accepted; otherwise it returns `-ENODEV` or the failing write's result |
| SysfsWrite.PolicyWritesStore | lib/sysfs.c:511-522 | after an accepted policy write the store holds the decimal max, the decimal min and the governor name |
| SysfsWrite.PolicyReadsBack | lib/sysfs.c:207-228 | a store holding a governor name and two nonzero decimal bounds reads back as that policy |
| SysfsWrite.ValueReadsBack | lib/sysfs.c:41-74 | a numeric attribute holding the `"%lu"` text of n reads back as n |
| SysfsWrite.GovernorReadsBack | lib/sysfs.c:90-121 | the governor attribute holding a valid governor name reads back as that name |
| SysfsWrite.GovernorNameReadsBack | lib/sysfs.c:105-116 | a valid governor name is short enough, has no newline to drop and no NUL to cut at |
| SysfsWrite.SetPolicyRoundTrip | lib/sysfs.c:495-523 | after `sysfs_set_policy` succeeds with a nonzero minimum, `sysfs_get_policy` returns the same governor and bounds |
| SysfsWrite.SetPolicyZeroMinUnreadable | lib/sysfs.c:495-523 | after `sysfs_set_policy` succeeds with a zero minimum, `sysfs_get_policy` returns NULL |
| SysfsWrite.CpufreqSysfs.WriteOneValue | lib/sysfs.c:140-162 | an index out of range returns 0 and changes nothing; otherwise one write: `-ENODEV` when the attribute does not open, else the logged result, which updates the store on 0 |
| SysfsWrite.CpufreqSysfs.ModifyPolicyGovernor | lib/sysfs.c:462-473 | `-EINVAL` with nothing written for a missing or invalid name; otherwise exactly one write of the name to `scaling_governor` |
| SysfsWrite.CpufreqSysfs.ModifyPolicyMax | lib/sysfs.c:475-482 | one write of the decimal text to `scaling_max_freq` |
| SysfsWrite.CpufreqSysfs.ModifyPolicyMin | lib/sysfs.c:485-492 | one write of the decimal text to `scaling_min_freq` |
| SysfsWrite.CpufreqSysfs.SetPolicy | lib/sysfs.c:495-523 | `-EINVAL` with nothing written unless the policy and its governor are given, max >= min and the name is valid; otherwise the ordered writes of max, min and governor, stopping at the first failure |
| SysfsWrite.CpufreqSysfs.SetFrequency | lib/sysfs.c:525-547 | `-ENODEV` with nothing written when the policy cannot be read; otherwise a switch to "userspace" unless already active, then the speed |
| SysfsWrite.SetFrequencySwitchFirst | lib/sysfs.c:534-546 | a needed switch is the first write; when it fails, its result is returned and the speed is never written; when it succeeds, the speed is written next |
| AperfMath.TruncDiv1000 | utils/aperf.c:180-181 | C division by 1000 truncates toward zero, for both signs |
| AperfMath.OverallMsecs | utils/aperf.c:180-181 | for a non-negative interval, the whole milliseconds it contains |
| AperfMath.ExpectedTicks | utils/aperf.c:183 | nonzero expected ticks imply a nonzero maximum frequency and a nonzero interval |
| AperfMath.ExpectedTicksExact | utils/aperf.c:183 | without wrap-around, the expected ticks are `max_freq * overall_msecs` |
| AperfMath.MsTime | utils/aperf.c:189-192 | the seconds and remainder stand for the same millisecond count, with the remainder below 1000 |
| AperfMath.CStateTime | utils/aperf.c:173-194 | both result timevals hold a millisecond remainder below 1000 |
| AperfMath.CStatePercent | utils/aperf.c:184 | with MPERF at most the expected ticks the C0 share is at most 100, and it is the floor of 100·mperf/expected when the product does not wrap |
| AperfMath.CStateSplit | utils/aperf.c:186-192 | C0 time is MPERF's ticks at maximum frequency, rounded down; C0 plus Cx time equals the interval or falls one millisecond short |
| AperfMath.CStateOverrun | utils/aperf.c:186 | when MPERF counted more than expected, the Cx time wraps to (2^64 + expected − mperf) / max_freq |
| AperfMath.CStateExample | utils/aperf.c:173-194 | one second at 2 GHz with MPERF at 2·10^9 ticks gives 100 %, C0 1 s and Cx 0 |
| AperfMath.ZeroExpectedTicks | utils/aperf.c:180-184 | an interval under a millisecond, or a zero maximum, gives a zero divisor |
| AperfMath.ShiftDiffs | utils/aperf.c:145-149 | both deltas are shifted right by 7 exactly when APERF's is above ULONG_MAX/100; afterwards APERF·100 fits in 64 bits and the order of the deltas is kept |
| AperfMath.PerfPercent | utils/aperf.c:150 | the percentage is the shifted APERF delta times 100 over the shifted MPERF delta, truncated, whenever that fits in `unsigned int` |
| AperfMath.AveragePerf | utils/aperf.c:140-152 | when neither the percentage nor `max_freq`·percentage wraps, the average is `max_freq`·percentage/100, truncated; in every case it is at most ULONG_MAX/100 |
| AperfMath.AverageAtFullRate | utils/aperf.c:140-152 | equal deltas average exactly `max_freq` |
| AperfMath.AverageNoBoostBounded | utils/aperf.c:150-151 | APERF no faster than MPERF averages at most `max_freq` |
| AperfMath.AverageBoostAtLeast | utils/aperf.c:150-151 | APERF at least as fast as MPERF averages at least `max_freq`, when nothing wraps |
| AperfMath.AverageExamples | utils/aperf.c:140-152 | at 2 GHz, full rate averages 2 GHz and half rate averages 1 GHz |
| AperfMath.ShiftZeroesSmallMperf | utils/aperf.c:145-150 | a large APERF delta with an MPERF delta below 128 leaves a zero divisor after the shift |
| AperfSampler.StartInfo | utils/aperf.c:196-219 | the entry is valid exactly when both the limits and the counters were read; the maximum is stored once the limits are known; the baseline is the reading |
| AperfSampler.Delta | utils/aperf.c:263-264 | the counter's advance modulo 2^64, and the baseline plus it is the new reading |
| AperfSampler.DeltasCompose | utils/aperf.c:272-273 | deltas against successive baselines add up, modulo 2^64, to the delta over the whole span |
| AperfSampler.SampleCpu | utils/aperf.c:326-341 | a sample exactly when the entry is valid and the read succeeded; the sample is the average and C-state split of the deltas, modulo 2^64, from the baseline to the reading; otherwise the entry is unchanged; the baseline moves to the reading; validity and maximum never change |
| AperfSampler.SuccessiveSamples | utils/aperf.c:331-341 | the second sample measures the second reading against the first |
| AperfSampler.AllRunShape | utils/aperf.c:307-348 | one report of every CPU per pass, and a single pass with `once` |
| AperfSampler.InvalidCpuStaysSilent | utils/aperf.c:301-329 | a CPU whose start-up failed reports nothing in every pass |
| AperfSampler.Sampler.constructor | utils/aperf.c:298-299 | one fresh entry per configured CPU, none of them valid |
| AperfSampler.Sampler.MeasureStartInfo | utils/aperf.c:196-219 | the entry becomes `StartInfo` of its old value; the other entries are untouched; it returns 0 exactly when the entry is valid, else `-EINVAL` |
| AperfSampler.Sampler.Init | utils/aperf.c:301-305 | every entry becomes `StartInfo` of its own reads |
| AperfSampler.Sampler.SampleAt | utils/aperf.c:326-341 | the sample and the new entry are `SampleCpu` of the old entry; the other entries are untouched |
| AperfSampler.Sampler.Pass | utils/aperf.c:319-344 | the reports and the new table are `PassResult` of the old table |
| AperfSampler.Sampler.Watch | utils/aperf.c:243-283 | the samples and the number of passes made are `SingleRun` of the old entry; the entry ends as `SingleRunEntry` of it; the other entries are untouched |
| AperfSampler.MeasureAllCpus | utils/aperf.c:287-350 | the reports are `AllRun` of the start-up table |
| AperfSampler.SingleRun | utils/aperf.c:243-283 | no more samples than passes made, and no more passes than given |
| AperfSampler.SingleRunEntry | utils/aperf.c:243-283 | the loop keeps the entry's validity and maximum, and leaves an invalid entry as it was |
| AperfSampler.RunEntryBaseline | utils/aperf.c:263-273 | after the loop a valid entry is the start-up entry rebased on the last reading taken in the passes made, or the start-up entry unchanged when every read failed |
| AperfSampler.OnceStopsAfterFirstSample | utils/aperf.c:257-278 | with `once` the loop stops after the first successful read, with that one sample; every earlier read failed; with no successful read it uses every pass |
| AperfSampler.ContinuousRunSamplesEveryRead | utils/aperf.c:257-282 | without `once` every pass is made and there is one sample per successful read |
| AperfSampler.MeasureOneCpu | utils/aperf.c:230-285 | `-EINVAL` with no pass exactly when the limits or counters could not be read; otherwise 0 and `SingleRun` of the start-up entry |

## Left out

- libsysfs itself is not part of this model: path formatting, `sysfs_open_attribute`, `sysfs_read_attribute`, `sysfs_write_attribute` and `sysfs_path_is_dir`. The attribute map and the write oracle stand in for them.
- `sysfs_cpu_exists` (lib/sysfs.c:165-172) is left out. It only asks libsysfs whether a directory exists.
- Allocation failures and the freeing of partly built lists are left out: `malloc` returning NULL, and the `error_out` paths only as far as allocation is concerned. A failed conversion still gives NULL.
- `errno` is not modelled. A stale `ERANGE` from an earlier call cannot make `sysfs_get_one_value` return 0.
- SysfsStore.GetOneString: on an empty attribute text the C code reads `result[-1]`, which is undefined behaviour. The model returns the empty string.
- `cpufreq_get_hardware_limits` comes from lib/cpufreq.c, which is not part of this model. The maximum frequency it yields is an input.
- The MSR access is left out: `read_msr`, `get_aperf_mperf` and `cpu_has_effective_freq` (utils/aperf.c:69-125). A reading is an input.
- Clock and printing are left out: `gettimeofday`, `sleep`, `timersub`, `print_cpu_stats`, option parsing and `main` (utils/aperf.c:221-228, 353 onwards). Samples are returned instead of printed.
- AperfSampler.Sampler.Watch: the endless `while(1)` loop is modelled over a finite sequence of passes. The same holds for AperfSampler.MeasureAllCpus.
- AperfSampler.Sampler.constructor: `malloc` leaves `cpu_list` uninitialised. The model starts every entry as the invalid `Blank`, so an entry that start-up leaves invalid keeps whatever fields it had.
- AperfMath.CStateTime: a `timeval` whose microsecond count overflows a signed long is undefined behaviour in C. `ElapsedOk` excludes it.
- AperfMath.ExpectedTicks: the contract says only that a nonzero result needs nonzero factors. The exact product without wrap-around is the lemma `ExpectedTicksExact`.
- The debug kernel modules (debug/kernel/) are not part of the core.
