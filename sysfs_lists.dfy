/**
 * The three list readers of lib/sysfs.c (available governors, available
 * frequencies, affected CPUs). Each scans the attribute text once with an
 * index `i` and a token start `pos`; at a delimiter (space, NUL or newline)
 * whose distance from `pos` is at least a minimum length it emits
 * `text[pos..i)` and moves `pos` past the delimiter. A delimiter closer to
 * `pos` is skipped without moving `pos`, so the short segment becomes the
 * beginning of the next token; text after the last delimiter is never
 * emitted, because the loop's end-of-text test sits inside a loop that
 * stops before reaching it.
 */
module SysfsLists {
  import opened CTypes
  import opened CLib
  import opened SysfsStore

  predicate IsDelim(c: char)
  {
    c == ' ' || c == '\0' || c == '\n'
  }

  /** The first delimiter of `t` at or after index `from`. */
  function NextDelim(t: string, from: nat): (r: Option<nat>)
    decreases |t| - from
    ensures r.Some? ==> from <= r.value < |t| && IsDelim(t[r.value])
                        && forall k :: from <= k < r.value ==> !IsDelim(t[k])
    ensures r.None? ==> forall k :: from <= k < |t| ==> !IsDelim(t[k])
  {
    if from >= |t| then None
    else if IsDelim(t[from]) then Some(from)
    else NextDelim(t, from + 1)
  }

  /**
   * The tokens the readers emit from `t`, as a specification: the first
   * token ends at the first delimiter lying at least `minLen` characters
   * from the start, and the rest of the list is read from just after it.
   */
  function Split(t: string, minLen: nat): seq<string>
    decreases |t|
  {
    match NextDelim(t, minLen)
    case None => []
    case Some(i) => [t[..i]] + Split(t[i + 1..], minLen)
  }

  /** The scanning loop shared by the three readers. */
  method ScanTokens(value: string, minLen: nat) returns (tokens: seq<string>)
    ensures tokens == Split(value, minLen)
  {
    tokens := [];
    var pos := 0;
    assert value[pos..] == value;
    // The source also tests `i == len` here, which the loop bound never lets hold.
    for i := 0 to |value|
      invariant pos <= i
      invariant ScanAccount(value, minLen, tokens, pos, i)
    {
      if IsDelim(value[i]) {
        if i - pos < minLen {
          SkipShort(value, minLen, tokens, pos, i);
          continue;
        }
        ScanEmit(value, minLen, tokens, pos, i);
        tokens := tokens + [value[pos..i]];
        pos := i + 1;
      } else {
        SkipPlain(value, minLen, tokens, pos, i);
      }
    }
    NoCutFrom(value, minLen, pos);
  }

  /** No delimiter in `t[lo..hi)`. */
  predicate NoDelimIn(t: string, lo: int, hi: int)
    requires hi <= |t|
  {
    forall k :: 0 <= lo <= k < hi ==> !IsDelim(t[k])
  }

  /**
   * The loop's account after the characters before `i`: no delimiter far
   * enough from `pos` has been passed, and the tokens emitted followed by the
   * tokens of the text from `pos` on are the tokens of the whole text.
   */
  predicate ScanAccount(value: string, minLen: nat, tokens: seq<string>, pos: nat, i: nat)
  {
    pos <= i <= |value|
    && NoDelimIn(value, pos + minLen, i)
    && tokens + Split(value[pos..], minLen) == Split(value, minLen)
  }

  /** Emitting a token keeps the loop's account. */
  lemma ScanEmit(value: string, minLen: nat, tokens: seq<string>, pos: nat, i: nat)
    requires i < |value| && IsDelim(value[i]) && pos + minLen <= i
    requires ScanAccount(value, minLen, tokens, pos, i)
    ensures ScanAccount(value, minLen, tokens + [value[pos..i]], i + 1, i + 1)
  {
    CutAt(value, minLen, pos, i);
    ConcatAssoc(tokens, [value[pos..i]], Split(value[i + 1..], minLen));
  }

  /** A delimiter too close to `pos` is passed over. */
  lemma SkipShort(value: string, minLen: nat, tokens: seq<string>, pos: nat, i: nat)
    requires i < |value| && i < pos + minLen
    requires ScanAccount(value, minLen, tokens, pos, i)
    ensures ScanAccount(value, minLen, tokens, pos, i + 1)
  {
  }

  /** A character that is no delimiter is passed over. */
  lemma SkipPlain(value: string, minLen: nat, tokens: seq<string>, pos: nat, i: nat)
    requires i < |value| && !IsDelim(value[i])
    requires ScanAccount(value, minLen, tokens, pos, i)
    ensures ScanAccount(value, minLen, tokens, pos, i + 1)
  {
  }

  /** The loop's emission step, in terms of the specification. */
  lemma CutAt(value: string, minLen: nat, pos: nat, i: nat)
    requires pos + minLen <= i < |value| && IsDelim(value[i])
    requires forall k :: pos + minLen <= k < i ==> !IsDelim(value[k])
    ensures Split(value[pos..], minLen) == [value[pos..i]] + Split(value[i + 1..], minLen)
  {
    var t := value[pos..];
    SuffixSlices(value, pos, i);
    forall k | minLen <= k < i - pos
      ensures !IsDelim(t[k])
    {
      assert t[k] == value[pos + k];
    }
    EmitAt(t, minLen, i - pos);
  }

  lemma SuffixSlices(value: string, pos: nat, i: nat)
    requires pos <= i < |value|
    ensures value[pos..][i - pos] == value[i]
    ensures value[pos..][..i - pos] == value[pos..i]
    ensures value[pos..][i - pos + 1..] == value[i + 1..]
  {
  }

  /** The loop's exit: no further delimiter far enough from `pos`, so nothing more is emitted. */
  lemma NoCutFrom(value: string, minLen: nat, pos: nat)
    requires pos <= |value|
    requires NoDelimIn(value, pos + minLen, |value|)
    ensures Split(value[pos..], minLen) == []
  {
    var t := value[pos..];
    assert forall k :: 0 <= k < |t| ==> t[k] == value[pos + k];
    NoCut(t, minLen);
  }

  /** A delimiter at `j >= minLen` with none before it from `minLen` on closes the first token. */
  lemma EmitAt(t: string, minLen: nat, j: nat)
    requires minLen <= j < |t| && IsDelim(t[j])
    requires forall k :: minLen <= k < j ==> !IsDelim(t[k])
    ensures Split(t, minLen) == [t[..j]] + Split(t[j + 1..], minLen)
  {
    var r := NextDelim(t, minLen);
    if r.None? || r.value != j {
      assert false;
    }
  }

  /** Without a delimiter from `minLen` on, nothing is emitted. */
  lemma NoCut(t: string, minLen: nat)
    requires forall k :: minLen <= k < |t| ==> !IsDelim(t[k])
    ensures Split(t, minLen) == []
  {
    if NextDelim(t, minLen).Some? {
      assert false;
    }
  }

  /**
   * Every emitted token is at least `minLen` long, and any delimiter inside
   * it lies within its first `minLen` characters (a merged short segment).
   */
  lemma {:induction false} SplitTokenShape(t: string, minLen: nat)
    ensures forall k :: 0 <= k < |Split(t, minLen)| ==>
              |Split(t, minLen)[k]| >= minLen
              && forall j :: minLen <= j < |Split(t, minLen)[k]| ==> !IsDelim(Split(t, minLen)[k][j])
    decreases |t|
  {
    match NextDelim(t, minLen)
    case None =>
    case Some(i) =>
      SplitTokenShape(t[i + 1..], minLen);
  }

  /** Text after the last delimiter is never emitted: appending delimiter-free text changes nothing. */
  lemma {:induction false} SplitIgnoresUndelimitedTail(s: string, tail: string, minLen: nat)
    requires forall k :: 0 <= k < |tail| ==> !IsDelim(tail[k])
    ensures Split(s + tail, minLen) == Split(s, minLen)
    decreases |s|
  {
    match NextDelim(s, minLen)
    case None =>
      var st := s + tail;
      assert forall k :: 0 <= k < |s| ==> st[k] == s[k];
      assert forall k :: |s| <= k < |st| ==> st[k] == tail[k - |s|];
      NoCut(st, minLen);
    case Some(i) =>
      var a, b := s[..i], s[i + 1..];
      assert s == a + [s[i]] + b;
      ConcatAssoc(a + [s[i]], b, tail);
      SplitEmits(a, s[i], b + tail, minLen);
      SplitIgnoresUndelimitedTail(b, tail, minLen);
  }

  /** A delimited segment of at least `minLen` characters is emitted as the next token. */
  lemma SplitEmits(a: string, d: char, b: string, minLen: nat)
    requires |a| >= minLen && IsDelim(d)
    requires forall k :: minLen <= k < |a| ==> !IsDelim(a[k])
    ensures Split(a + [d] + b, minLen) == [a] + Split(b, minLen)
  {
    var t := a + [d] + b;
    assert t[|a|] == d;
    assert forall k :: minLen <= k < |a| ==> t[k] == a[k];
    EmitAt(t, minLen, |a|);
    assert t[..|a|] == a;
    assert t[|a| + 1..] == b;
  }

  /** A segment shorter than `minLen` is not dropped: it starts the next emitted token. */
  lemma SplitMergesShort(a: string, d: char, b: string, minLen: nat)
    requires |a| < minLen && IsDelim(d)
    requires Split(a + [d] + b, minLen) != []
    ensures a + [d] <= Split(a + [d] + b, minLen)[0]
  {
    var t := a + [d] + b;
    var i := NextDelim(t, minLen).value;
    assert Split(t, minLen)[0] == t[..i];
    assert t[..i][..|a| + 1] == a + [d];
  }

  /** A frequency list as the kernel prints it, with a closing newline, yields every entry. */
  lemma SplitExampleFrequencies(text: string)
    requires text == "1600000 800000\n"
    ensures Split(text, 2) == ["1600000", "800000"]
  {
    var e: string := [];
    var t2 := "800000" + ['\n'] + e;
    assert text == "1600000" + [' '] + t2;
    NoCut(e, 2);
    SplitEmits("800000", '\n', e, 2);
    SplitEmits("1600000", ' ', t2, 2);
  }

  /** The tokens, each followed by the delimiter `d`. */
  function Delimited(tokens: seq<string>, d: char): string
  {
    if tokens == [] then [] else tokens[0] + [d] + Delimited(tokens[1..], d)
  }

  /** A token `Split` can emit: long enough, with no delimiter past its first `minLen` characters. */
  predicate Emittable(token: string, minLen: nat)
  {
    |token| >= minLen && forall j :: minLen <= j < |token| ==> !IsDelim(token[j])
  }

  /** Emittable tokens, each closed by a delimiter, are read back one by one. */
  lemma {:induction false} SplitDelimited(tokens: seq<string>, d: char, tail: string, minLen: nat)
    requires IsDelim(d)
    requires forall k :: 0 <= k < |tokens| ==> Emittable(tokens[k], minLen)
    ensures Split(Delimited(tokens, d) + tail, minLen) == tokens + Split(tail, minLen)
    decreases |tokens|
  {
    if tokens != [] {
      var head := tokens[0] + [d];
      var more := Delimited(tokens[1..], d);
      assert Delimited(tokens, d) == head + more;
      ConcatAssoc(head, more, tail);
      assert Emittable(tokens[0], minLen);
      SplitEmits(tokens[0], d, more + tail, minLen);
      SplitDelimited(tokens[1..], d, tail, minLen);
      calc {
        Split(Delimited(tokens, d) + tail, minLen);
        Split(tokens[0] + [d] + (more + tail), minLen);
        [tokens[0]] + (tokens[1..] + Split(tail, minLen));
        { ConcatAssoc([tokens[0]], tokens[1..], Split(tail, minLen)); }
        ([tokens[0]] + tokens[1..]) + Split(tail, minLen);
        { assert [tokens[0]] + tokens[1..] == tokens; }
        tokens + Split(tail, minLen);
      }
    } else {
      assert Delimited(tokens, d) + tail == tail;
    }
  }

  /**
   * A list as the kernel prints it, every entry followed by a space and the
   * whole closed by a newline, reads back as exactly its entries.
   */
  lemma SplitKernelList(tokens: seq<string>, minLen: nat)
    requires minLen >= 1
    requires forall k :: 0 <= k < |tokens| ==> Emittable(tokens[k], minLen)
    ensures Split(Delimited(tokens, ' ') + "\n", minLen) == tokens
  {
    SplitDelimited(tokens, ' ', "\n", minLen);
    NoCut("\n", minLen);
  }

  /**
   * Short segments merge into the next token and an undelimited last token
   * is lost: "0 1 22 333" yields "0 1" and "22".
   */
  lemma SplitExampleShortSegments()
    ensures Split("0 1 22 333", 2) == ["0 1", "22"]
  {
    var c := "333";
    var b := "22" + [' '] + c;
    var a := "0 1" + [' '] + b;
    assert a == "0 1 22 333";
    NoCut(c, 2);
    SplitEmits("22", ' ', c, 2);
    SplitEmits("0 1", ' ', b, 2);
    assert Split(a, 2) == ["0 1"] + (["22"] + []);
  }

  /** The governor names of a token list: each token as the C string it was copied into. */
  function GovernorNames(tokens: seq<string>): (r: seq<string>)
    ensures |r| == |tokens|
    ensures forall k :: 0 <= k < |r| ==> r[k] <= tokens[k] && '\0' !in r[k]
    ensures forall k :: 0 <= k < |r| && |r[k]| < |tokens[k]| ==> tokens[k][|r[k]|] == '\0'
    ensures forall k :: 0 <= k < |r| && '\0' !in tokens[k] ==> r[k] == tokens[k]
  {
    seq(|tokens|, k requires 0 <= k < |tokens| => CStr(tokens[k]))
  }

  /**
   * Converts every token; one token that does not convert fails the whole
   * list (the readers free what they built and return NULL).
   */
  function ConvertAll<T>(tokens: seq<string>, convert: string -> Option<T>): (r: Option<seq<T>>)
    ensures r.Some? <==> forall k :: 0 <= k < |tokens| ==> convert(tokens[k]).Some?
    ensures r.Some? ==> |r.value| == |tokens|
                        && forall k :: 0 <= k < |tokens| ==> r.value[k] == convert(tokens[k]).value
  {
    if tokens == [] then Some([])
    else
      var head := convert(tokens[0]);
      var rest := ConvertAll(tokens[1..], convert);
      assert forall k :: 1 <= k < |tokens| ==> tokens[k] == tokens[1..][k - 1];
      if head.None? || rest.None? then None else Some([head.value] + rest.value)
  }

  /** One frequency token: refused when it would not fit the copy buffer, else sscanf "%lu". */
  function FrequencyToken(t: string): (r: Option<u64>)
    ensures |t| >= SYSFS_PATH_MAX ==> r.None?
    ensures |t| < SYSFS_PATH_MAX ==> r == ScanUL(t)
  {
    if |t| >= SYSFS_PATH_MAX then None else ScanUL(t)
  }

  /** One CPU token: refused when it would not fit the copy buffer, else sscanf "%u". */
  function CpuToken(t: string): (r: Option<u32>)
    ensures |t| >= SYSFS_PATH_MAX ==> r.None?
    ensures |t| < SYSFS_PATH_MAX ==> r == ScanU(t)
  {
    if |t| >= SYSFS_PATH_MAX then None else ScanU(t)
  }

  /** A frequency printed with "%lu" is read back as itself. */
  lemma FrequencyTokenDecimal(n: u64)
    ensures FrequencyToken(Decimal(n)) == Some(n)
  {
    DecimalLength64(n);
    DecimalScanRoundTrip(n);
  }

  /** A CPU number printed with "%lu" is read back as its low 32 bits. */
  lemma CpuTokenDecimal(n: u64)
    ensures CpuToken(Decimal(n)) == Some(n % TWO32)
  {
    DecimalLength64(n);
    DecimalScanRoundTrip(n);
  }

  /** A token that starts with a letter is no number: both converters refuse it. */
  lemma TokenRefusesLetter(t: string)
    requires t != [] && ('a' <= t[0] <= 'z' || 'A' <= t[0] <= 'Z')
    ensures FrequencyToken(t).None? && CpuToken(t).None?
  {
    ScanRefusesLetter(t);
  }

  /**
   * sysfs_get_available_governors. NULL when the attribute cannot be read
   * and also when no token is emitted (an empty list is a NULL head).
   */
  method AvailableGovernors(attrs: AttrMap, cpu: u32) returns (r: Option<seq<string>>)
    ensures var text := ReadText(attrs, AttrKey(cpu, "scaling_available_governors"));
            r.Some? <==> text.Some? && Split(text.value, 2) != []
    ensures r.Some? ==>
              var tokens := Split(attrs[AttrKey(cpu, "scaling_available_governors")].value, 2);
              r.value == GovernorNames(tokens) && |r.value| > 0
  {
    var text := ReadText(attrs, AttrKey(cpu, "scaling_available_governors"));
    if text.None? {
      return None;
    }
    var tokens := ScanTokens(text.value, 2);
    if tokens == [] {
      return None;
    }
    return Some(GovernorNames(tokens));
  }

  /** sysfs_get_available_frequencies. */
  method AvailableFrequencies(attrs: AttrMap, cpu: u32) returns (r: Option<seq<u64>>)
    ensures var text := ReadText(attrs, AttrKey(cpu, "scaling_available_frequencies"));
            r.Some? <==> text.Some? && Split(text.value, 2) != []
                         && forall k :: 0 <= k < |Split(text.value, 2)| ==>
                              FrequencyToken(Split(text.value, 2)[k]).Some?
    ensures r.Some? ==>
              var tokens := Split(attrs[AttrKey(cpu, "scaling_available_frequencies")].value, 2);
              |r.value| == |tokens| > 0
              && forall k :: 0 <= k < |tokens| ==> r.value[k] == ScanUL(tokens[k]).value
  {
    var text := ReadText(attrs, AttrKey(cpu, "scaling_available_frequencies"));
    if text.None? {
      return None;
    }
    var tokens := ScanTokens(text.value, 2);
    if tokens == [] {
      return None;
    }
    return ConvertAll(tokens, FrequencyToken);
  }

  /** sysfs_get_affected_cpus: CPU numbers, where a single character suffices for a token. */
  method AffectedCpus(attrs: AttrMap, cpu: u32) returns (r: Option<seq<u32>>)
    ensures var text := ReadText(attrs, AttrKey(cpu, "affected_cpus"));
            r.Some? <==> text.Some? && Split(text.value, 1) != []
                         && forall k :: 0 <= k < |Split(text.value, 1)| ==>
                              CpuToken(Split(text.value, 1)[k]).Some?
    ensures r.Some? ==>
              var tokens := Split(attrs[AttrKey(cpu, "affected_cpus")].value, 1);
              |r.value| == |tokens| > 0
              && forall k :: 0 <= k < |tokens| ==> r.value[k] == ScanU(tokens[k]).value
  {
    var text := ReadText(attrs, AttrKey(cpu, "affected_cpus"));
    if text.None? {
      return None;
    }
    var tokens := ScanTokens(text.value, 1);
    if tokens == [] {
      return None;
    }
    return ConvertAll(tokens, CpuToken);
  }
}
