/**
 * The write side of lib/sysfs.c: governor-name validation, the single
 * attribute writer, the three policy modifiers, sysfs_set_policy and
 * sysfs_set_frequency.
 *
 * Whether the kernel accepts a write is decided by an oracle on the attribute
 * and the text. Every write that reaches an opened attribute is appended to a
 * log with its result; an accepted write replaces the attribute's text.
 */
module SysfsWrite {
  import opened CTypes
  import opened CLib
  import opened SysfsStore

  /** The characters verify_gov lets through: ASCII letters, '-' and '_' (no digits). */
  predicate IsGovernorChar(c: char)
  {
    ('a' <= c <= 'z') || ('A' <= c <= 'Z') || c == '-' || c == '_'
  }

  /** A name verify_gov accepts: at most 19 characters, all governor characters; "" included. */
  predicate IsGovernorName(s: string)
  {
    |s| <= 19 && forall k :: 0 <= k < |s| ==> IsGovernorChar(s[k])
  }

  /** Size of the buffer verify_gov fills (19 characters and a NUL). */
  const GOV_BUF: nat := 20

  /**
   * verify_gov(new_gov, passed_gov): copies the name into a 20-byte buffer
   * padded with NULs and checks every character before the first NUL.
   */
  method VerifyGov(passed: Option<string>) returns (rc: int, newGov: seq<char>)
    ensures rc == 0 || rc == -EINVAL
    ensures rc == 0 <==> passed.Some? && IsGovernorName(CStr(passed.value))
    ensures rc == 0 ==> |newGov| == GOV_BUF
                        && newGov[..|CStr(passed.value)|] == CStr(passed.value)
                        && forall k :: |CStr(passed.value)| <= k < GOV_BUF ==> newGov[k] == '\0'
  {
    if passed.None? || |CStr(passed.value)| > 19 {
      return -EINVAL, [];
    }
    var name := CStr(passed.value);
    // strncpy(new_gov, passed_gov, 20)
    var buf := new char[GOV_BUF]((k: int) => if 0 <= k < |name| then name[k] else '\0');
    var ended := false;
    for i := 0 to GOV_BUF
      invariant ended <==> i > |name|
      invariant forall k :: 0 <= k < |name| ==> buf[k] == name[k]
      invariant forall k :: |name| <= k < GOV_BUF ==> buf[k] == '\0'
      invariant forall k :: 0 <= k < i && k < |name| ==> IsGovernorChar(name[k])
    {
      if ended {
        buf[i] := '\0';
        continue;
      }
      if 'a' <= buf[i] <= 'z' {
        continue;
      }
      if 'A' <= buf[i] <= 'Z' {
        continue;
      }
      if buf[i] == '-' {
        continue;
      }
      if buf[i] == '_' {
        continue;
      }
      if buf[i] == '\0' {
        ended := true;
        continue;
      }
      return -EINVAL, buf[..];
    }
    buf[19] := '\0';
    return 0, buf[..];
  }

  /** A name padded with NULs denotes the name again as a C string. */
  lemma PaddedName(name: string, buf: seq<char>)
    requires '\0' !in name && |name| <= |buf| && buf[..|name|] == name
    requires forall k :: |name| <= k < |buf| ==> buf[k] == '\0'
    ensures CStr(buf) == name
  {
    var r := CStr(buf);
    assert forall k :: 0 <= k < |name| ==> buf[k] != '\0';
    assert |name| < |buf| ==> buf[|name|] == '\0';
    assert |r| == |name|;
    assert r == buf[..|name|];
  }

  /** strncmp(a, b, n) == 0 on two C strings: their first n characters (or all, if shorter) agree. */
  predicate StrNEqual(a: string, b: string, n: nat)
  {
    a[..if |a| < n then |a| else n] == b[..if |b| < n then |b| else n]
  }

  /** The governor test of sysfs_set_frequency is a prefix test. */
  lemma UserspacePrefix(governor: string)
    ensures StrNEqual(governor, "userspace", 9) <==> "userspace" <= governor
  {
    if |governor| < 9 {
      assert |governor[..|governor|]| < 9;
    }
  }

  /** "userspace" is a name verify_gov accepts, and it has no NUL. */
  lemma UserspaceName(name: string)
    requires name == "userspace"
    ensures CStr(name) == name && IsGovernorName(name)
  {
    CStrOfPlain(name);
  }

  /** The writable attributes, indexed by the `which` argument of the writer. */
  const WRITE_SCALING_MIN_FREQ: nat := 0
  const WRITE_SCALING_MAX_FREQ: nat := 1
  const WRITE_SCALING_GOVERNOR: nat := 2
  const WRITE_SCALING_SET_SPEED: nat := 3
  const WriteFiles: seq<string> := ["scaling_min_freq", "scaling_max_freq", "scaling_governor", "scaling_setspeed"]

  datatype WriteRecord = WriteRecord(key: AttrKey, text: string, rc: int)

  /** The control surface as writes see it: the attributes and the log of writes so far. */
  datatype Surface = Surface(attrs: AttrMap, log: seq<WriteRecord>)

  /** The result the kernel gives a write of `text` to an attribute. */
  type WriteOracle = (AttrKey, string) -> int

  /** One write: -ENODEV when the attribute does not open, else the oracle's result, logged. */
  function WriteStep(s: Surface, oracle: WriteOracle, key: AttrKey, text: string): (Surface, int)
  {
    if key !in s.attrs then (s, -ENODEV)
    else
      var rc := oracle(key, text);
      (Surface(if rc == 0 then s.attrs[key := Text(text)] else s.attrs,
               s.log + [WriteRecord(key, text, rc)]), rc)
  }

  /** Writes in order, stopping at the first nonzero result, which is returned. */
  function RunWrites(s: Surface, oracle: WriteOracle, plan: seq<(AttrKey, string)>): (Surface, int)
    decreases |plan|
  {
    if plan == [] then (s, 0)
    else
      var (s1, rc) := WriteStep(s, oracle, plan[0].0, plan[0].1);
      if rc != 0 then (s1, rc) else RunWrites(s1, oracle, plan[1..])
  }

  /** RunWrites unfolded once. */
  lemma RunWritesStep(s: Surface, oracle: WriteOracle, plan: seq<(AttrKey, string)>)
    requires plan != []
    ensures var (s1, rc) := WriteStep(s, oracle, plan[0].0, plan[0].1);
            RunWrites(s, oracle, plan) == if rc != 0 then (s1, rc) else RunWrites(s1, oracle, plan[1..])
  {
  }

  /** A plan of one write is that write. */
  lemma RunWritesSingle(s: Surface, oracle: WriteOracle, w: (AttrKey, string))
    ensures RunWrites(s, oracle, [w]) == WriteStep(s, oracle, w.0, w.1)
  {
    RunWritesStep(s, oracle, [w]);
    assert [w][1..] == [];
  }

  /** The records a run appended match the plan, in order, and all but the last were accepted. */
  predicate LoggedInOrder(added: seq<WriteRecord>, plan: seq<(AttrKey, string)>, oracle: WriteOracle)
  {
    |added| <= |plan|
    && (forall k :: 0 <= k < |added| ==>
          added[k] == WriteRecord(plan[k].0, plan[k].1, oracle(plan[k].0, plan[k].1)))
    && (forall k :: 0 <= k < |added| - 1 ==> added[k].rc == 0)
  }

  /**
   * Ordered writes, as a relation between the surface before a run (`s`) and
   * after it (`s'`, with result `rc`): the log grows by the planned writes, in
   * plan order, up to and including the first that fails; nothing after a
   * failure is written; the run succeeds exactly when every planned write was
   * made and accepted, and otherwise returns -ENODEV (an attribute that does
   * not open) or the failing write's result.
   */
  predicate Recorded(s: Surface, s': Surface, rc: int, plan: seq<(AttrKey, string)>, oracle: WriteOracle)
  {
    s.log <= s'.log
    && LoggedInOrder(s'.log[|s.log|..], plan, oracle)
    && (rc == 0 <==> |s'.log| - |s.log| == |plan|
                     && forall k :: |s.log| <= k < |s'.log| ==> s'.log[k].rc == 0)
    && (rc != 0 ==> rc == -ENODEV || (|s'.log| > |s.log| && s'.log[|s'.log| - 1].rc == rc))
  }

  /** Every run of writes is recorded in order. */
  lemma {:induction false} RunWritesOrdered(s: Surface, oracle: WriteOracle, plan: seq<(AttrKey, string)>)
    ensures Recorded(s, RunWrites(s, oracle, plan).0, RunWrites(s, oracle, plan).1, plan, oracle)
    decreases |plan|
  {
    if plan != [] {
      RunWritesStep(s, oracle, plan);
      var (s1, rc1) := WriteStep(s, oracle, plan[0].0, plan[0].1);
      if rc1 == 0 {
        RunWritesOrdered(s1, oracle, plan[1..]);
        var (s', rc) := RunWrites(s1, oracle, plan[1..]);
        RecordedExtend(s, s1, s', rc, plan, oracle);
      } else {
        RecordedStop(s, oracle, plan);
      }
    }
  }

  /** A first write that fails ends the run, recorded. */
  lemma RecordedStop(s: Surface, oracle: WriteOracle, plan: seq<(AttrKey, string)>)
    requires plan != [] && WriteStep(s, oracle, plan[0].0, plan[0].1).1 != 0
    ensures var (s1, rc1) := WriteStep(s, oracle, plan[0].0, plan[0].1);
            Recorded(s, s1, rc1, plan, oracle)
  {
    var (s1, rc1) := WriteStep(s, oracle, plan[0].0, plan[0].1);
    if plan[0].0 in s.attrs {
      assert s1.log[|s.log|..] == [WriteRecord(plan[0].0, plan[0].1, rc1)];
    } else {
      assert s1.log[|s.log|..] == [];
    }
  }

  /** An accepted first write followed by a recorded run of the rest is a recorded run of the plan. */
  lemma RecordedExtend(s: Surface, s1: Surface, s': Surface, rc: int,
                       plan: seq<(AttrKey, string)>, oracle: WriteOracle)
    requires plan != [] && WriteStep(s, oracle, plan[0].0, plan[0].1) == (s1, 0)
    requires Recorded(s1, s', rc, plan[1..], oracle)
    ensures Recorded(s, s', rc, plan, oracle)
  {
    assert plan[0].0 in s.attrs;
    assert s1.log == s.log + [WriteRecord(plan[0].0, plan[0].1, 0)];
    var added1 := s'.log[|s1.log|..];
    var added := s'.log[|s.log|..];
    assert added == [s1.log[|s.log|]] + added1;
    forall k | 1 <= k < |added|
      ensures added[k] == added1[k - 1] && plan[k] == plan[1..][k - 1]
    {
    }
  }

  /** The attributes after every write of `plan` was accepted, in order. */
  function Stored(attrs: AttrMap, plan: seq<(AttrKey, string)>): AttrMap
    decreases |plan|
  {
    if plan == [] then attrs else Stored(attrs[plan[0].0 := Text(plan[0].1)], plan[1..])
  }

  /** A run that succeeds stores every planned text, in order. */
  lemma {:induction false} RunWritesStored(s: Surface, oracle: WriteOracle, plan: seq<(AttrKey, string)>)
    requires RunWrites(s, oracle, plan).1 == 0
    ensures RunWrites(s, oracle, plan).0.attrs == Stored(s.attrs, plan)
    decreases |plan|
  {
    if plan != [] {
      RunWritesStep(s, oracle, plan);
      var (s1, rc1) := WriteStep(s, oracle, plan[0].0, plan[0].1);
      RunWritesStored(s1, oracle, plan[1..]);
    }
  }

  /** A run whose first `k` writes succeed goes on as a run of the rest from there. */
  lemma {:induction false} RunWritesSplit(s: Surface, oracle: WriteOracle, plan: seq<(AttrKey, string)>, k: nat)
    requires k <= |plan|
    requires RunWrites(s, oracle, plan[..k]).1 == 0
    ensures RunWrites(s, oracle, plan) == RunWrites(RunWrites(s, oracle, plan[..k]).0, oracle, plan[k..])
    decreases k
  {
    if k == 0 {
      assert plan[..0] == [] && plan[0..] == plan;
    } else {
      RunWritesStep(s, oracle, plan[..k]);
      RunWritesStep(s, oracle, plan);
      assert plan[..k][0] == plan[0];
      var (s1, rc1) := WriteStep(s, oracle, plan[0].0, plan[0].1);
      assert plan[..k][1..] == plan[1..][..k - 1];
      RunWritesSplit(s1, oracle, plan[1..], k - 1);
      assert plan[1..][k - 1..] == plan[k..];
    }
  }

  /**
   * A run that fails at write `k` leaves the store as the accepted writes
   * `0..k-1` made it: the failing write changes nothing and nothing after it
   * is written. The earlier writes are not undone.
   */
  lemma RunWritesFailsAt(s: Surface, oracle: WriteOracle, plan: seq<(AttrKey, string)>, k: nat)
    requires k < |plan|
    requires RunWrites(s, oracle, plan[..k]).1 == 0
    requires WriteStep(RunWrites(s, oracle, plan[..k]).0, oracle, plan[k].0, plan[k].1).1 != 0
    ensures RunWrites(s, oracle, plan).1 == WriteStep(RunWrites(s, oracle, plan[..k]).0, oracle, plan[k].0, plan[k].1).1
    ensures RunWrites(s, oracle, plan).0.attrs == Stored(s.attrs, plan[..k])
  {
    RunWritesSplit(s, oracle, plan, k);
    RunWritesStored(s, oracle, plan[..k]);
    RunWritesStep(RunWrites(s, oracle, plan[..k]).0, oracle, plan[k..]);
    assert plan[k..][0] == plan[k];
  }

  function Key(cpu: u32, which: nat): AttrKey
    requires which < |WriteFiles|
  {
    AttrKey(cpu, WriteFiles[which])
  }

  /** A policy sysfs_set_policy accepts: non-NULL, with a governor, max >= min, a valid governor name. */
  predicate PolicyAccepted(policy: Option<Policy>)
  {
    policy.Some? && policy.value.governor.Some? && policy.value.max >= policy.value.min
    && IsGovernorName(CStr(policy.value.governor.value))
  }

  /** What sysfs_set_policy writes, in order: max, then min, then the governor. */
  function PolicyPlan(cpu: u32, policy: Policy): seq<(AttrKey, string)>
    requires policy.governor.Some?
  {
    [(Key(cpu, WRITE_SCALING_MAX_FREQ), Decimal(policy.max)),
     (Key(cpu, WRITE_SCALING_MIN_FREQ), Decimal(policy.min)),
     (Key(cpu, WRITE_SCALING_GOVERNOR), CStr(policy.governor.value))]
  }

  /**
   * What sysfs_set_frequency writes, in order: "userspace" to the governor
   * unless the current governor already starts with it, then the speed.
   */
  function FrequencyPlan(cpu: u32, governor: string, target: u64): seq<(AttrKey, string)>
  {
    (if StrNEqual(governor, "userspace", 9) then [] else [(Key(cpu, WRITE_SCALING_GOVERNOR), "userspace")])
    + [(Key(cpu, WRITE_SCALING_SET_SPEED), Decimal(target))]
  }

  /** The store after a policy's writes have all been accepted. */
  lemma PolicyWritesStore(s: Surface, oracle: WriteOracle, cpu: u32, p: Policy)
    requires p.governor.Some?
    requires RunWrites(s, oracle, PolicyPlan(cpu, p)).1 == 0
    ensures RunWrites(s, oracle, PolicyPlan(cpu, p)).0.attrs
            == s.attrs[Key(cpu, WRITE_SCALING_MAX_FREQ) := Text(Decimal(p.max))]
                      [Key(cpu, WRITE_SCALING_MIN_FREQ) := Text(Decimal(p.min))]
                      [Key(cpu, WRITE_SCALING_GOVERNOR) := Text(CStr(p.governor.value))]
  {
    var plan := PolicyPlan(cpu, p);
    var (s1, rc1) := WriteStep(s, oracle, plan[0].0, plan[0].1);
    RunWritesStep(s, oracle, plan);
    assert rc1 == 0;
    var (s2, rc2) := WriteStep(s1, oracle, plan[1].0, plan[1].1);
    RunWritesStep(s1, oracle, plan[1..]);
    assert rc2 == 0;
    assert plan[1..][1..] == [plan[2]];
    RunWritesSingle(s2, oracle, plan[2]);
  }

  /** A store holding a governor name and two nonzero decimal bounds reads back as that policy. */
  lemma PolicyReadsBack(attrs: AttrMap, cpu: u32, gov: string, min: u64, max: u64)
    requires IsGovernorName(gov) && min != 0 && max != 0
    requires AttrKey(cpu, StringFiles[SCALING_GOVERNOR]) in attrs
             && attrs[AttrKey(cpu, StringFiles[SCALING_GOVERNOR])] == Text(gov)
    requires AttrKey(cpu, ValueFiles[SCALING_MIN_FREQ]) in attrs
             && attrs[AttrKey(cpu, ValueFiles[SCALING_MIN_FREQ])] == Text(Decimal(min))
    requires AttrKey(cpu, ValueFiles[SCALING_MAX_FREQ]) in attrs
             && attrs[AttrKey(cpu, ValueFiles[SCALING_MAX_FREQ])] == Text(Decimal(max))
    ensures GetPolicy(attrs, cpu) == Some(Policy(Some(gov), min, max))
  {
    ValueReadsBack(attrs, cpu, SCALING_MIN_FREQ, min);
    ValueReadsBack(attrs, cpu, SCALING_MAX_FREQ, max);
    GovernorReadsBack(attrs, cpu, gov);
  }

  /**
   * sysfs_set_policy does not refuse a zero minimum: when every write is
   * accepted, the stored "0" reads as unknown and sysfs_get_policy returns NULL.
   */
  lemma SetPolicyZeroMinUnreadable(s: Surface, oracle: WriteOracle, cpu: u32, policy: Option<Policy>)
    requires PolicyAccepted(policy) && policy.value.min == 0
    requires RunWrites(s, oracle, PolicyPlan(cpu, policy.value)).1 == 0
    ensures GetPolicy(RunWrites(s, oracle, PolicyPlan(cpu, policy.value)).0.attrs, cpu) == None
  {
    var p := policy.value;
    PolicyWritesStore(s, oracle, cpu, p);
    var attrs := RunWrites(s, oracle, PolicyPlan(cpu, p)).0.attrs;
    assert WriteFiles[WRITE_SCALING_MIN_FREQ] == ValueFiles[SCALING_MIN_FREQ];
    assert WriteFiles[WRITE_SCALING_GOVERNOR] != ValueFiles[SCALING_MIN_FREQ];
    ValueReadsBack(attrs, cpu, SCALING_MIN_FREQ, 0);
  }

  /** A numeric attribute holding what "%lu" printed for `n` reads back as `n`. */
  lemma ValueReadsBack(attrs: AttrMap, cpu: u32, which: nat, n: u64)
    requires which < |ValueFiles|
    requires AttrKey(cpu, ValueFiles[which]) in attrs && attrs[AttrKey(cpu, ValueFiles[which])] == Text(Decimal(n))
    ensures GetOneValue(attrs, cpu, which) == n
  {
    ValueOfDecimal(n);
  }

  /** The governor attribute holding a governor name reads back as that name. */
  lemma GovernorReadsBack(attrs: AttrMap, cpu: u32, gov: string)
    requires IsGovernorName(gov)
    requires AttrKey(cpu, StringFiles[SCALING_GOVERNOR]) in attrs
             && attrs[AttrKey(cpu, StringFiles[SCALING_GOVERNOR])] == Text(gov)
    ensures GetOneString(attrs, cpu, SCALING_GOVERNOR) == Some(gov)
  {
    GovernorNameReadsBack(gov);
  }

  /** A governor name is stored and read back unchanged: no newline to drop, no NUL to cut at. */
  lemma GovernorNameReadsBack(gov: string)
    requires IsGovernorName(gov)
    ensures |gov| < SYSFS_PATH_MAX && CStr(DropNewline(gov)) == gov
  {
    assert gov == [] || gov[|gov| - 1] != '\n' by {
      if gov != [] { assert IsGovernorChar(gov[|gov| - 1]); }
    }
    assert '\0' !in gov by {
      assert forall k :: 0 <= k < |gov| ==> IsGovernorChar(gov[k]);
    }
    assert DropNewline(gov) == gov;
    CStrOfPlain(gov);
  }

  /**
   * Writing a policy that is accepted, with every write accepted, and reading
   * it back yields the same bounds and governor (a zero min reads as unknown,
   * so it is excluded).
   */
  lemma SetPolicyRoundTrip(s: Surface, oracle: WriteOracle, cpu: u32, policy: Option<Policy>)
    requires PolicyAccepted(policy) && policy.value.min != 0
    requires RunWrites(s, oracle, PolicyPlan(cpu, policy.value)).1 == 0
    ensures GetPolicy(RunWrites(s, oracle, PolicyPlan(cpu, policy.value)).0.attrs, cpu)
            == Some(Policy(Some(CStr(policy.value.governor.value)), policy.value.min, policy.value.max))
  {
    var p := policy.value;
    PolicyWritesStore(s, oracle, cpu, p);
    var attrs := RunWrites(s, oracle, PolicyPlan(cpu, p)).0.attrs;
    assert WriteFiles[WRITE_SCALING_GOVERNOR] == StringFiles[SCALING_GOVERNOR];
    assert WriteFiles[WRITE_SCALING_MIN_FREQ] == ValueFiles[SCALING_MIN_FREQ];
    assert WriteFiles[WRITE_SCALING_MAX_FREQ] == ValueFiles[SCALING_MAX_FREQ];
    PolicyReadsBack(attrs, cpu, CStr(p.governor.value), p.min, p.max);
  }

  /** The attribute store together with the write oracle and the log. */
  class CpufreqSysfs {
    var attrs: AttrMap
    var log: seq<WriteRecord>
    const oracle: WriteOracle

    constructor (attrs: AttrMap, oracle: WriteOracle)
      ensures this.attrs == attrs && this.log == [] && this.oracle == oracle
    {
      this.attrs := attrs;
      this.log := [];
      this.oracle := oracle;
    }

    function State(): Surface
      reads this
    {
      Surface(attrs, log)
    }

    /** sysfs_write_one_value. */
    method WriteOneValue(cpu: u32, which: nat, text: string) returns (rc: int)
      modifies this
      ensures which >= |WriteFiles| ==> rc == 0 && State() == old(State())
      ensures which < |WriteFiles| ==> (State(), rc) == WriteStep(old(State()), oracle, Key(cpu, which), text)
    {
      if which >= |WriteFiles| {
        return 0;
      }
      var key := Key(cpu, which);
      if key !in attrs {
        return -ENODEV;
      }
      rc := oracle(key, text);
      log := log + [WriteRecord(key, text, rc)];
      if rc == 0 {
        attrs := attrs[key := Text(text)];
      }
    }

    /** sysfs_modify_policy_governor: validate the name, then write it. */
    method ModifyPolicyGovernor(cpu: u32, governor: Option<string>) returns (rc: int)
      modifies this
      ensures !(governor.Some? && IsGovernorName(CStr(governor.value))) ==>
                rc == -EINVAL && State() == old(State())
      ensures governor.Some? && IsGovernorName(CStr(governor.value)) ==>
                (State(), rc) == WriteStep(old(State()), oracle, Key(cpu, WRITE_SCALING_GOVERNOR), CStr(governor.value))
    {
      if governor.None? {
        return -EINVAL;
      }
      var ok, newGov := VerifyGov(governor);
      if ok != 0 {
        return -EINVAL;
      }
      PaddedName(CStr(governor.value), newGov);
      rc := WriteOneValue(cpu, WRITE_SCALING_GOVERNOR, CStr(newGov));
    }

    /** sysfs_modify_policy_max: write the upper bound as decimal text. */
    method ModifyPolicyMax(cpu: u32, maxFreq: u64) returns (rc: int)
      modifies this
      ensures (State(), rc) == WriteStep(old(State()), oracle, Key(cpu, WRITE_SCALING_MAX_FREQ), Decimal(maxFreq))
    {
      rc := WriteOneValue(cpu, WRITE_SCALING_MAX_FREQ, Decimal(maxFreq));
    }

    /** sysfs_modify_policy_min: write the lower bound as decimal text. */
    method ModifyPolicyMin(cpu: u32, minFreq: u64) returns (rc: int)
      modifies this
      ensures (State(), rc) == WriteStep(old(State()), oracle, Key(cpu, WRITE_SCALING_MIN_FREQ), Decimal(minFreq))
    {
      rc := WriteOneValue(cpu, WRITE_SCALING_MIN_FREQ, Decimal(minFreq));
    }

    /**
     * sysfs_set_policy: refuse a NULL policy or governor, max < min and an
     * invalid name with -EINVAL and no write; otherwise write max, min and
     * governor in that order and stop at the first failure.
     */
    method SetPolicy(cpu: u32, policy: Option<Policy>) returns (rc: int)
      modifies this
      ensures !PolicyAccepted(policy) ==> rc == -EINVAL && State() == old(State())
      ensures PolicyAccepted(policy) ==>
                (State(), rc) == RunWrites(old(State()), oracle, PolicyPlan(cpu, policy.value))
    {
      if policy.None? || policy.value.governor.None? {
        return -EINVAL;
      }
      var p := policy.value;
      if p.max < p.min {
        return -EINVAL;
      }
      var ok, gov := VerifyGov(p.governor);
      if ok != 0 {
        return -EINVAL;
      }
      PaddedName(CStr(p.governor.value), gov);
      ghost var plan := PolicyPlan(cpu, p);
      RunWritesStep(State(), oracle, plan);
      rc := WriteOneValue(cpu, WRITE_SCALING_MAX_FREQ, Decimal(p.max));
      if rc != 0 {
        return;
      }
      plan := plan[1..];
      RunWritesStep(State(), oracle, plan);
      rc := WriteOneValue(cpu, WRITE_SCALING_MIN_FREQ, Decimal(p.min));
      if rc != 0 {
        return;
      }
      plan := plan[1..];
      RunWritesSingle(State(), oracle, plan[0]);
      assert plan == [plan[0]];
      rc := WriteOneValue(cpu, WRITE_SCALING_GOVERNOR, CStr(gov));
    }

    /**
     * sysfs_set_frequency: -ENODEV when the policy cannot be read; switch to
     * the "userspace" governor first unless it is already active (a failed
     * switch is returned and the speed is not written); then write the speed.
     */
    method SetFrequency(cpu: u32, target: u64) returns (rc: int)
      modifies this
      ensures GetPolicy(old(attrs), cpu).None? ==> rc == -ENODEV && State() == old(State())
      ensures GetPolicy(old(attrs), cpu).Some? ==>
                (State(), rc) == RunWrites(old(State()), oracle,
                                           FrequencyPlan(cpu, GetPolicy(old(attrs), cpu).value.governor.value, target))
    {
      var pol := GetPolicy(attrs, cpu);
      if pol.None? {
        return -ENODEV;
      }
      ghost var plan := FrequencyPlan(cpu, pol.value.governor.value, target);
      if !StrNEqual(pol.value.governor.value, "userspace", 9) {
        UserspaceName("userspace");
        RunWritesStep(State(), oracle, plan);
        rc := ModifyPolicyGovernor(cpu, Some("userspace"));
        if rc != 0 {
          return;
        }
        plan := plan[1..];
      }
      RunWritesSingle(State(), oracle, plan[0]);
      assert plan == [plan[0]];
      rc := WriteOneValue(cpu, WRITE_SCALING_SET_SPEED, Decimal(target));
    }
  }

  /**
   * In sysfs_set_frequency a failed switch to "userspace" ends the call: the
   * speed attribute is never written. When the switch is needed and accepted,
   * the speed is written next.
   */
  lemma SetFrequencySwitchFirst(s: Surface, oracle: WriteOracle, cpu: u32, governor: string, target: u64)
    requires !("userspace" <= governor)
    requires Key(cpu, WRITE_SCALING_GOVERNOR) in s.attrs
    ensures var (s', rc) := RunWrites(s, oracle, FrequencyPlan(cpu, governor, target));
            var switch := oracle(Key(cpu, WRITE_SCALING_GOVERNOR), "userspace");
            |s'.log| > |s.log|
            && s'.log[|s.log|] == WriteRecord(Key(cpu, WRITE_SCALING_GOVERNOR), "userspace", switch)
            && (switch != 0 ==> |s'.log| == |s.log| + 1 && rc == switch)
            && (switch == 0 && Key(cpu, WRITE_SCALING_SET_SPEED) in s.attrs ==>
                  |s'.log| == |s.log| + 2 && s'.log[|s.log| + 1].key == Key(cpu, WRITE_SCALING_SET_SPEED)
                  && s'.log[|s.log| + 1].text == Decimal(target))
  {
    UserspacePrefix(governor);
    var plan := FrequencyPlan(cpu, governor, target);
    assert plan == [(Key(cpu, WRITE_SCALING_GOVERNOR), "userspace"), (Key(cpu, WRITE_SCALING_SET_SPEED), Decimal(target))];
    RunWritesStep(s, oracle, plan);
    var (s1, rc1) := WriteStep(s, oracle, plan[0].0, plan[0].1);
    if rc1 == 0 {
      assert plan[1..] == [plan[1]];
      RunWritesSingle(s1, oracle, plan[1]);
    }
  }
}
