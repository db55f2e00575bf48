/**
 * The per-CPU cpufreq attribute store under /sys/devices/system/cpu/cpuN/cpufreq/
 * and the read accessors of lib/sysfs.c that turn attribute text into typed
 * values.
 *
 * The store is a map from (cpu, attribute name) to the attribute's state: an
 * attribute missing from the map cannot be opened, an `Unreadable` one opens
 * but its read fails (or leaves no value), and `Text(s)` reads as the bytes `s`.
 */
module SysfsStore {
  import opened CTypes
  import opened CLib

  /** Size of libsysfs's path and value buffers. */
  const SYSFS_PATH_MAX: nat := 256

  datatype AttrKey = AttrKey(cpu: u32, name: string)
  datatype Attr = Unreadable | Text(value: string)
  type AttrMap = map<AttrKey, Attr>

  /** The numeric attributes, indexed by the `which` argument of the value reader. */
  const CPUINFO_CUR_FREQ: nat := 0
  const CPUINFO_MIN_FREQ: nat := 1
  const CPUINFO_MAX_FREQ: nat := 2
  const SCALING_CUR_FREQ: nat := 3
  const SCALING_MIN_FREQ: nat := 4
  const SCALING_MAX_FREQ: nat := 5
  const ValueFiles: seq<string> := ["cpuinfo_cur_freq", "cpuinfo_min_freq", "cpuinfo_max_freq",
                                    "scaling_cur_freq", "scaling_min_freq", "scaling_max_freq"]

  /** The string attributes, indexed by the `which` argument of the string reader. */
  const SCALING_DRIVER: nat := 0
  const SCALING_GOVERNOR: nat := 1
  const StringFiles: seq<string> := ["scaling_driver", "scaling_governor"]

  /** Opening and reading one attribute: its text, or None when either step fails. */
  function ReadText(attrs: AttrMap, key: AttrKey): (r: Option<string>)
    ensures r.Some? <==> key in attrs && attrs[key].Text?
    ensures r.Some? ==> r.value == attrs[key].value
  {
    if key in attrs && attrs[key].Text? then Some(attrs[key].value) else None
  }

  /**
   * The number an attribute's text holds, under the "0 means unknown"
   * convention: an empty text, a text where strtoul consumes no digit and a
   * value beyond ULONG_MAX all give 0.
   */
  function ValueOfText(text: string): (r: u64)
    ensures r != 0 ==> |text| > 0 && StrToUL(text) == Converted(r)
    ensures |text| > 0 && StrToUL(text).Converted? ==> r == StrToUL(text).value
  {
    if |text| == 0 then 0
    else match StrToUL(text)
      case Converted(v) => v
      case _ => 0
  }

  /** sysfs_get_one_value: read and convert one numeric attribute of a CPU. */
  function GetOneValue(attrs: AttrMap, cpu: u32, which: nat): (r: u64)
    ensures which >= |ValueFiles| ==> r == 0
    ensures which < |ValueFiles| && ReadText(attrs, AttrKey(cpu, ValueFiles[which])).None? ==> r == 0
    ensures r != 0 ==> which < |ValueFiles|
                       && ReadText(attrs, AttrKey(cpu, ValueFiles[which])).Some?
                       && StrToUL(ReadText(attrs, AttrKey(cpu, ValueFiles[which])).value) == Converted(r)
    ensures which < |ValueFiles| && ReadText(attrs, AttrKey(cpu, ValueFiles[which])).Some? ==>
              r == ValueOfText(ReadText(attrs, AttrKey(cpu, ValueFiles[which])).value)
  {
    if which >= |ValueFiles| then 0
    else match ReadText(attrs, AttrKey(cpu, ValueFiles[which]))
      case None => 0
      case Some(text) => ValueOfText(text)
  }

  /** The attribute text with one trailing newline, if present, removed. */
  function DropNewline(text: string): (r: string)
    ensures if text != [] && text[|text| - 1] == '\n' then r + "\n" == text else r == text
  {
    if text != [] && text[|text| - 1] == '\n' then text[..|text| - 1] else text
  }

  /**
   * sysfs_get_one_string: read one string attribute of a CPU. Texts of
   * SYSFS_PATH_MAX bytes or more are refused; one trailing newline is removed;
   * the result is the C string the copied buffer holds.
   */
  function GetOneString(attrs: AttrMap, cpu: u32, which: nat): (r: Option<string>)
    ensures r.Some? <==> which < |StringFiles|
                         && ReadText(attrs, AttrKey(cpu, StringFiles[which])).Some?
                         && |ReadText(attrs, AttrKey(cpu, StringFiles[which])).value| < SYSFS_PATH_MAX
    ensures r.Some? ==> '\0' !in r.value && |r.value| < SYSFS_PATH_MAX
    ensures r.Some? ==>
              var text := ReadText(attrs, AttrKey(cpu, StringFiles[which])).value;
              '\0' !in text ==>
                if text != [] && text[|text| - 1] == '\n' then r.value + "\n" == text else r.value == text
    ensures r.Some? ==>
              var plain := DropNewline(ReadText(attrs, AttrKey(cpu, StringFiles[which])).value);
              r.value <= plain && (|r.value| < |plain| ==> plain[|r.value|] == '\0')
  {
    if which >= |StringFiles| then None
    else match ReadText(attrs, AttrKey(cpu, StringFiles[which]))
      case None => None
      case Some(text) =>
        if |text| >= SYSFS_PATH_MAX then None
        else
          CStrOfPlainIfNoNul(DropNewline(text));
          Some(CStr(DropNewline(text)))
  }

  lemma CStrOfPlainIfNoNul(s: string)
    ensures '\0' !in s ==> CStr(s) == s
  {
    if '\0' !in s { CStrOfPlain(s); }
  }

  /** sysfs_get_freq_kernel: the frequency the kernel last set (scaling_cur_freq), 0 if unknown. */
  function GetFreqKernel(attrs: AttrMap, cpu: u32): (r: u64)
    ensures ReadText(attrs, AttrKey(cpu, "scaling_cur_freq")).None? ==> r == 0
    ensures r != 0 ==> StrToUL(attrs[AttrKey(cpu, "scaling_cur_freq")].value) == Converted(r)
    ensures ReadText(attrs, AttrKey(cpu, "scaling_cur_freq")).Some? ==>
              r == ValueOfText(attrs[AttrKey(cpu, "scaling_cur_freq")].value)
  {
    GetOneValue(attrs, cpu, SCALING_CUR_FREQ)
  }

  /** sysfs_get_freq_hardware: the frequency the hardware reports (cpuinfo_cur_freq), 0 if unknown. */
  function GetFreqHardware(attrs: AttrMap, cpu: u32): (r: u64)
    ensures ReadText(attrs, AttrKey(cpu, "cpuinfo_cur_freq")).None? ==> r == 0
    ensures r != 0 ==> StrToUL(attrs[AttrKey(cpu, "cpuinfo_cur_freq")].value) == Converted(r)
    ensures ReadText(attrs, AttrKey(cpu, "cpuinfo_cur_freq")).Some? ==>
              r == ValueOfText(attrs[AttrKey(cpu, "cpuinfo_cur_freq")].value)
  {
    GetOneValue(attrs, cpu, CPUINFO_CUR_FREQ)
  }

  /** sysfs_get_driver: the scaling driver's name, or NULL. */
  function GetDriver(attrs: AttrMap, cpu: u32): (r: Option<string>)
    ensures r.Some? <==> ReadText(attrs, AttrKey(cpu, "scaling_driver")).Some?
                         && |attrs[AttrKey(cpu, "scaling_driver")].value| < SYSFS_PATH_MAX
    ensures r.Some? ==> '\0' !in r.value && |r.value| < SYSFS_PATH_MAX
    ensures r.Some? && '\0' !in attrs[AttrKey(cpu, "scaling_driver")].value ==>
              r.value == DropNewline(attrs[AttrKey(cpu, "scaling_driver")].value)
    ensures r.Some? ==>
              var plain := DropNewline(attrs[AttrKey(cpu, "scaling_driver")].value);
              r.value <= plain && (|r.value| < |plain| ==> plain[|r.value|] == '\0')
  {
    GetOneString(attrs, cpu, SCALING_DRIVER)
  }

  /**
   * What sysfs_get_hardware_limits returns and stores through its two
   * out-pointers (`None`: nothing stored).
   */
  datatype Limits = Limits(rc: int, min: Option<u64>, max: Option<u64>)

  /**
   * sysfs_get_hardware_limits. `minGiven`/`maxGiven` say whether the caller
   * passed non-NULL out-pointers.
   */
  function GetHardwareLimits(attrs: AttrMap, cpu: u32, minGiven: bool, maxGiven: bool): (r: Limits)
    ensures !minGiven || !maxGiven ==> r == Limits(-EINVAL, None, None)
    ensures r.rc == 0 <==> minGiven && maxGiven
                           && GetOneValue(attrs, cpu, CPUINFO_MIN_FREQ) != 0
                           && GetOneValue(attrs, cpu, CPUINFO_MAX_FREQ) != 0
    ensures r.rc == 0 || r.rc == -EINVAL || r.rc == -ENODEV
    ensures r.rc == 0 ==> r.min == Some(GetOneValue(attrs, cpu, CPUINFO_MIN_FREQ))
                          && r.max == Some(GetOneValue(attrs, cpu, CPUINFO_MAX_FREQ))
    ensures r.min == Some(0) ==> r.rc == -ENODEV && r.max == None
    ensures minGiven && maxGiven ==> r.min == Some(GetOneValue(attrs, cpu, CPUINFO_MIN_FREQ))
    ensures minGiven && maxGiven && r.rc != 0 ==> r.rc == -ENODEV
    ensures minGiven && maxGiven && GetOneValue(attrs, cpu, CPUINFO_MIN_FREQ) == 0 ==> r.max == None
    ensures minGiven && maxGiven && GetOneValue(attrs, cpu, CPUINFO_MIN_FREQ) != 0 ==>
              r.max == Some(GetOneValue(attrs, cpu, CPUINFO_MAX_FREQ))
  {
    if !minGiven || !maxGiven then Limits(-EINVAL, None, None)
    else
      var min := GetOneValue(attrs, cpu, CPUINFO_MIN_FREQ);
      if min == 0 then Limits(-ENODEV, Some(min), None)
      else
        var max := GetOneValue(attrs, cpu, CPUINFO_MAX_FREQ);
        if max == 0 then Limits(-ENODEV, Some(min), Some(max))
        else Limits(0, Some(min), Some(max))
  }

  /** struct cpufreq_policy; a `None` governor is a NULL governor pointer. */
  datatype Policy = Policy(governor: Option<string>, min: u64, max: u64)

  /** sysfs_get_policy: governor, lower and upper scaling bound, or NULL. */
  function GetPolicy(attrs: AttrMap, cpu: u32): (r: Option<Policy>)
    ensures r.Some? <==> GetOneString(attrs, cpu, SCALING_GOVERNOR).Some?
                         && GetOneValue(attrs, cpu, SCALING_MIN_FREQ) != 0
                         && GetOneValue(attrs, cpu, SCALING_MAX_FREQ) != 0
    ensures r.Some? ==> r.value.governor == GetOneString(attrs, cpu, SCALING_GOVERNOR)
                        && r.value.min == GetOneValue(attrs, cpu, SCALING_MIN_FREQ)
                        && r.value.max == GetOneValue(attrs, cpu, SCALING_MAX_FREQ)
  {
    match GetOneString(attrs, cpu, SCALING_GOVERNOR)
    case None => None
    case Some(governor) =>
      var min := GetOneValue(attrs, cpu, SCALING_MIN_FREQ);
      var max := GetOneValue(attrs, cpu, SCALING_MAX_FREQ);
      if min == 0 || max == 0 then None else Some(Policy(Some(governor), min, max))
  }

  /** An attribute holding what "%lu" printed for `n` reads back as `n`. */
  lemma ValueOfDecimal(n: u64)
    ensures ValueOfText(Decimal(n)) == n
  {
    DecimalRoundTrip(n);
  }
}
